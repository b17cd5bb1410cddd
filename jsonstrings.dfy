/**
 * The JSON text of a list of strings, as Go's `encoding/json` writes it
 * (`json.Marshal` of a `[]string`, HTML escaping on) and reads it back
 * (`json.Unmarshal` into a `[]string`). Characters are Unicode scalar
 * values; the UTF-8 byte level is not modelled.
 */
module JsonStrings {
  import opened Wrappers
  import Decimal

  const LowerHex: string := "0123456789abcdef"

  /** The JSON whitespace characters. */
  predicate IsJsonSpace(c: char) {
    c == ' ' || c == '\t' || c == '\n' || c == '\r'
  }

  /** The `\uXXXX` escape of a code point below U+10000, in lower-case hex. */
  function UnicodeEscape(cp: nat): (e: string)
    requires cp < 0x10000
    ensures |e| == 6 && e[0] == '\\' && e[1] == 'u'
  {
    var low12 := cp % 4096;
    var low8 := low12 % 256;
    ['\\', 'u', LowerHex[cp / 4096], LowerHex[low12 / 256], LowerHex[low8 / 16], LowerHex[low8 % 16]]
  }

  /** Whether the encoder writes `c` as a `\u` escape: other control characters, the HTML specials, U+2028 and U+2029. */
  predicate NeedsUnicodeEscape(c: char) {
    (c < ' ' && c != '\n' && c != '\r' && c != '\t' && c != '\U{0008}' && c != '\U{000C}')
    || c == '<' || c == '>' || c == '&' || c == '\U{2028}' || c == '\U{2029}'
  }

  /** One character inside a JSON string literal, as the encoder writes it. */
  function EscapeChar(c: char): (e: string)
    ensures |e| > 0
  {
    if c == '"' then "\\\""
    else if c == '\\' then "\\\\"
    else if c == '\n' then "\\n"
    else if c == '\r' then "\\r"
    else if c == '\t' then "\\t"
    else if c == '\U{0008}' then "\\b"
    else if c == '\U{000C}' then "\\f"
    else if NeedsUnicodeEscape(c) then UnicodeEscape(c as int)
    else [c]
  }

  /** The body of a JSON string literal. */
  function Escape(s: string): string
  {
    if s == [] then [] else EscapeChar(s[0]) + Escape(s[1..])
  }

  /** A JSON string literal. */
  function EncodeString(s: string): string
  {
    "\"" + Escape(s) + "\""
  }

  /** The elements after the first one, each preceded by a comma. */
  function EncodeRest(items: seq<string>): string
  {
    if items == [] then [] else "," + EncodeString(items[0]) + EncodeRest(items[1..])
  }

  /** What follows the opening bracket: the comma-separated elements and the closing bracket. */
  function Elements(items: seq<string>): (text: string)
    ensures |text| >= 1 && text[|text| - 1] == ']'
  {
    if items == [] then "]" else EncodeString(items[0]) + EncodeRest(items[1..]) + "]"
  }

  /** `json.Marshal` of a non-nil `[]string`: the elements, comma-separated, between brackets. */
  function Marshal(items: seq<string>): (text: string)
    ensures |text| >= 2 && text[0] == '[' && text[|text| - 1] == ']'
    ensures items == [] <==> text == "[]"
  {
    "[" + Elements(items)
  }

  // ---------------------------------------------------------------- decoding

  /** Drops leading JSON whitespace. */
  function SkipSpace(t: string): (r: string)
    ensures |r| <= |t| && r == t[|t| - |r|..]
    ensures r == [] || !IsJsonSpace(r[0])
  {
    if t != [] && IsJsonSpace(t[0]) then SkipSpace(t[1..]) else t
  }

  /** The value of a hex digit of either case. */
  function HexValue(c: char): (v: int)
    ensures -1 <= v < 16
  {
    if '0' <= c <= '9' then c as int - '0' as int
    else if 'a' <= c <= 'f' then c as int - 'a' as int + 10
    else if 'A' <= c <= 'F' then c as int - 'A' as int + 10
    else -1
  }

  /** Four hex digits as a number, or -1 when they are not four hex digits. */
  function Hex4(t: string): (v: int)
    ensures -1 <= v < 0x10000
  {
    if |t| < 4 || HexValue(t[0]) < 0 || HexValue(t[1]) < 0 || HexValue(t[2]) < 0 || HexValue(t[3]) < 0 then -1
    else 4096 * HexValue(t[0]) + 256 * HexValue(t[1]) + 16 * HexValue(t[2]) + HexValue(t[3])
  }

  /**
   * The text after a backslash: the character it stands for and the rest.
   * A `\u` high surrogate followed by a `\u` low surrogate is one character;
   * any other surrogate becomes U+FFFD.
   */
  function Unescape(t: string): (r: Option<(char, string)>)
    ensures r.Some? ==> |r.value.1| < |t|
  {
    if t == [] then None
    else if t[0] == '"' then Some(('"', t[1..]))
    else if t[0] == '\\' then Some(('\\', t[1..]))
    else if t[0] == '/' then Some(('/', t[1..]))
    else if t[0] == 'b' then Some(('\U{0008}', t[1..]))
    else if t[0] == 'f' then Some(('\U{000C}', t[1..]))
    else if t[0] == 'n' then Some(('\n', t[1..]))
    else if t[0] == 'r' then Some(('\r', t[1..]))
    else if t[0] == 't' then Some(('\t', t[1..]))
    else if t[0] == 'u' && Hex4(t[1..]) >= 0 then
      var u := Hex4(t[1..]);
      if 0xD800 <= u < 0xDC00 && |t| >= 11 && t[5] == '\\' && t[6] == 'u' && 0xDC00 <= Hex4(t[7..]) < 0xE000 then
        Some((((u - 0xD800) * 0x400 + (Hex4(t[7..]) - 0xDC00) + 0x10000) as char, t[11..]))
      else if 0xD800 <= u < 0xE000 then Some(('\U{FFFD}', t[5..]))
      else Some((u as char, t[5..]))
    else None
  }

  /** The text after an opening quote: the decoded string and the text after the closing quote. */
  function StringBody(t: string): (r: Option<(string, string)>)
    ensures r.Some? ==> |r.value.1| < |t|
    decreases |t|
  {
    if t == [] then None
    else if t[0] == '"' then Some(([], t[1..]))
    else if t[0] == '\\' then
      match Unescape(t[1..])
      case None => None
      case Some((c, rest)) =>
        match StringBody(rest)
        case None => None
        case Some((s, after)) => Some(([c] + s, after))
    else if t[0] < ' ' then None
    else
      match StringBody(t[1..])
      case None => None
      case Some((s, after)) => Some(([t[0]] + s, after))
  }

  /** A string literal's body, dropped: the text after the closing quote. */
  function AfterString(t: string): (r: Option<string>)
    ensures r.Some? ==> |r.value| < |t|
  {
    match StringBody(t)
    case None => None
    case Some((_, rest)) => Some(rest)
  }

  /** Drops leading decimal digits. */
  function SkipDigits(t: string): (r: string)
    ensures |r| <= |t|
    ensures r == [] || !Decimal.IsDigit(r[0])
  {
    if t != [] && Decimal.IsDigit(t[0]) then SkipDigits(t[1..]) else t
  }

  /** At least one digit: the text after all of them. */
  function Digits(t: string): (r: Option<string>)
    ensures r.Some? ==> |r.value| < |t|
  {
    if t != [] && Decimal.IsDigit(t[0]) then Some(SkipDigits(t[1..])) else None
  }

  /** The integer part of a number: a lone `0`, or digits starting with a non-zero one. */
  function IntegerPart(t: string): (r: Option<string>)
    ensures r.Some? ==> |r.value| < |t|
  {
    if t != [] && t[0] == '0' then Some(t[1..]) else Digits(t)
  }

  /** An optional fraction: `.` and at least one digit. */
  function FractionPart(t: string): (r: Option<string>)
    ensures r.Some? ==> |r.value| <= |t|
  {
    if t != [] && t[0] == '.' then Digits(t[1..]) else Some(t)
  }

  /** An optional exponent: `e` or `E`, an optional sign, at least one digit. */
  function ExponentPart(t: string): (r: Option<string>)
    ensures r.Some? ==> |r.value| <= |t|
  {
    if t != [] && (t[0] == 'e' || t[0] == 'E') then
      var u := t[1..];
      if u != [] && (u[0] == '+' || u[0] == '-') then Digits(u[1..]) else Digits(u)
    else Some(t)
  }

  /** A JSON number: an optional minus, the integer part, then the optional fraction and exponent. */
  function Number(t: string): (r: Option<string>)
    ensures r.Some? ==> |r.value| < |t|
  {
    var u := if t != [] && t[0] == '-' then t[1..] else t;
    match IntegerPart(u)
    case None => None
    case Some(v) =>
      match FractionPart(v)
      case None => None
      case Some(w) => ExponentPart(w)
  }

  /** Any JSON value, as the syntax check reads it: the text after it. */
  function SkipValue(t: string): (r: Option<string>)
    ensures r.Some? ==> |r.value| < |t|
    decreases |t|, 0
  {
    if t == [] then None
    else if t[0] == '"' then AfterString(t[1..])
    else if t[0] == '[' then SkipArray(SkipSpace(t[1..]))
    else if t[0] == '{' then SkipObject(SkipSpace(t[1..]))
    else if "true" <= t then Some(t[4..])
    else if "false" <= t then Some(t[5..])
    else if "null" <= t then Some(t[4..])
    else Number(t)
  }

  /** The inside of an array after the opening bracket and any space: the text after the closing bracket. */
  function SkipArray(t: string): (r: Option<string>)
    ensures r.Some? ==> |r.value| < |t|
    decreases |t|, 1
  {
    if t != [] && t[0] == ']' then Some(t[1..])
    else
      match SkipValue(t)
      case None => None
      case Some(rest) => SkipArrayMore(rest)
  }

  /** The text after an array value: further `, value` pairs up to the closing bracket. */
  function SkipArrayMore(t: string): (r: Option<string>)
    ensures r.Some? ==> |r.value| < |t|
    decreases |t|, 0
  {
    var u := SkipSpace(t);
    if u != [] && u[0] == ']' then Some(u[1..])
    else if u != [] && u[0] == ',' then
      match SkipValue(SkipSpace(u[1..]))
      case None => None
      case Some(rest) => SkipArrayMore(rest)
    else None
  }

  /** The inside of an object after the opening brace and any space: the text after the closing brace. */
  function SkipObject(t: string): (r: Option<string>)
    ensures r.Some? ==> |r.value| < |t|
    decreases |t|, 1
  {
    if t != [] && t[0] == '}' then Some(t[1..])
    else
      match SkipMember(t)
      case None => None
      case Some(rest) => SkipObjectMore(rest)
  }

  /** One `"key": value` member: the text after the value. */
  function SkipMember(t: string): (r: Option<string>)
    ensures r.Some? ==> |r.value| < |t|
    decreases |t|, 0
  {
    if t != [] && t[0] == '"' then
      match AfterString(t[1..])
      case None => None
      case Some(rest) =>
        var u := SkipSpace(rest);
        if u != [] && u[0] == ':' then SkipValue(SkipSpace(u[1..])) else None
    else None
  }

  /** The text after an object member: further `, member` pairs up to the closing brace. */
  function SkipObjectMore(t: string): (r: Option<string>)
    ensures r.Some? ==> |r.value| < |t|
    decreases |t|, 0
  {
    var u := SkipSpace(t);
    if u != [] && u[0] == '}' then Some(u[1..])
    else if u != [] && u[0] == ',' then
      match SkipMember(SkipSpace(u[1..]))
      case None => None
      case Some(rest) => SkipObjectMore(rest)
    else None
  }

  /**
   * One element of an array decoded into a `[]string`: a string, `null`,
   * or any other JSON value, which Go reports as a type error.
   */
  datatype Item = Str(s: string) | Null | Mistyped

  /** A decoded string literal as an element. */
  function AsStr(r: Option<(string, string)>): (r': Option<(Item, string)>)
    ensures r'.Some? <==> r.Some?
    ensures r'.Some? ==> r'.value == (Str(r.value.0), r.value.1)
  {
    match r
    case None => None
    case Some((s, rest)) => Some((Str(s), rest))
  }

  /** One array element and the text after it. */
  function Element(t: string): (r: Option<(Item, string)>)
    ensures r.Some? ==> |r.value.1| < |t|
  {
    if t != [] && t[0] == '"' then AsStr(StringBody(t[1..]))
    else if "null" <= t then Some((Null, t[4..]))
    else
      match SkipValue(t)
      case None => None
      case Some(rest) => Some((Mistyped, rest))
  }

  /** The text after an element: further `, element` pairs up to the closing bracket. */
  function MoreElements(t: string): (r: Option<(seq<Item>, string)>)
    ensures r.Some? ==> |r.value.1| < |t|
    decreases |t|, 1
  {
    var u := SkipSpace(t);
    if u != [] && u[0] == ']' then Some(([], u[1..]))
    else if u != [] && u[0] == ',' then ElementThenMore(SkipSpace(u[1..]))
    else None
  }

  /** One element, then the `, element` pairs up to the closing bracket. */
  function ElementThenMore(t: string): (r: Option<(seq<Item>, string)>)
    ensures r.Some? ==> |r.value.1| < |t|
    decreases |t|, 0
  {
    match Element(t)
    case None => None
    case Some((x, rest)) => Prepend(x, MoreElements(rest))
  }

  /** The elements read after `x`, with `x` in front. */
  function Prepend(x: Item, r: Option<(seq<Item>, string)>): (r': Option<(seq<Item>, string)>)
    ensures r'.Some? <==> r.Some?
    ensures r'.Some? ==> r'.value == ([x] + r.value.0, r.value.1)
  {
    match r
    case None => None
    case Some((xs, after)) => Some(([x] + xs, after))
  }

  /** The text after an opening bracket: the elements and the text after the closing bracket. */
  function ArrayBody(t: string): Option<(seq<Item>, string)>
  {
    var u := SkipSpace(t);
    if u != [] && u[0] == ']' then Some(([], u[1..]))
    else ElementThenMore(u)
  }

  /** The elements of an all-string array. */
  function Strs(items: seq<string>): (r: seq<Item>)
    ensures |r| == |items|
    ensures forall i :: 0 <= i < |items| ==> r[i] == Str(items[i])
  {
    if items == [] then [] else [Str(items[0])] + Strs(items[1..])
  }

  /**
   * What `json.Unmarshal` into a `[]string` finds: `null`, an array's
   * elements, another JSON value (a type error that writes nothing), or a
   * syntax error.
   */
  datatype Decoded = DecodedNil | DecodedArray(items: seq<Item>) | DecodedOther | Malformed

  /** `json.Unmarshal` of a whole text into a `[]string`: one value, with nothing but space around it. */
  function Unmarshal(text: string): Decoded
  {
    var u := SkipSpace(text);
    if u != [] && u[0] == '[' then
      match ArrayBody(u[1..])
      case Some((xs, rest)) => if SkipSpace(rest) == [] then DecodedArray(xs) else Malformed
      case None => Malformed
    else if "null" <= u then
      if SkipSpace(u[4..]) == [] then DecodedNil else Malformed
    else
      match SkipValue(u)
      case Some(rest) => if SkipSpace(rest) == [] then DecodedOther else Malformed
      case None => Malformed
  }

  /**
   * How `json.Unmarshal` writes decoded elements into the receiver's slice,
   * element by element from the front: a string overwrites the element, while
   * `null` and a mistyped value leave it as it was ("" past the current length);
   * the slice then ends after the last decoded element.
   */
  function Reuse(current: seq<string>, xs: seq<Item>): (r: seq<string>)
    ensures |r| == |xs|
  {
    seq(|xs|, i requires 0 <= i < |xs| =>
      if xs[i].Str? then xs[i].s else if i < |current| then current[i] else "")
  }

  // ------------------------------------------------------------- round trip

  /** Every lower-case hex digit reads back as its value. */
  lemma HexDigitValue(d: nat)
    requires d < 16
    ensures HexValue(LowerHex[d]) == d
  {
  }

  /** A `\u` escape written by the encoder reads back as its code point. */
  lemma UnicodeEscapeReads(cp: nat, rest: string)
    requires cp < 0x10000
    ensures Hex4((UnicodeEscape(cp) + rest)[2..]) == cp
  {
    var t := UnicodeEscape(cp) + rest;
    var low12 := cp % 4096;
    var low8 := low12 % 256;
    HexDigitValue(cp / 4096);
    HexDigitValue(low12 / 256);
    HexDigitValue(low8 / 16);
    HexDigitValue(low8 % 16);
    assert t[2..][0] == LowerHex[cp / 4096] && t[2..][1] == LowerHex[low12 / 256];
    assert t[2..][2] == LowerHex[low8 / 16] && t[2..][3] == LowerHex[low8 % 16];
    assert cp == 4096 * (cp / 4096) + 256 * (low12 / 256) + 16 * (low8 / 16) + low8 % 16;
  }

  /** The characters the encoder writes as a two-character escape. */
  predicate HasShortEscape(c: char) {
    c == '"' || c == '\\' || c == '\n' || c == '\r' || c == '\t' || c == '\U{0008}' || c == '\U{000C}'
  }

  /** A `\u` escape reads back as the character. */
  lemma UnicodeEscapedCharReads(c: char, rest: string)
    requires NeedsUnicodeEscape(c) && !HasShortEscape(c)
    ensures StringBody(EscapeChar(c) + rest) ==
      match StringBody(rest)
      case None => None
      case Some((s, after)) => Some(([c] + s, after))
  {
    var t := EscapeChar(c) + rest;
    assert EscapeChar(c) == UnicodeEscape(c as int);
    UnicodeEscapeReads(c as int, rest);
    assert t[1..][1..] == t[2..];
    assert t[1..][5..] == rest;
    assert Unescape(t[1..]) == Some((c, rest));
  }

  /** A two-character escape reads back as the character. */
  lemma ShortEscapedCharReads(c: char, rest: string)
    requires HasShortEscape(c)
    ensures StringBody(EscapeChar(c) + rest) ==
      match StringBody(rest)
      case None => None
      case Some((s, after)) => Some(([c] + s, after))
  {
    var t := EscapeChar(c) + rest;
    assert t[1..][1..] == rest;
  }

  /** Reading one escaped character gives the character back. */
  lemma EscapeCharReads(c: char, rest: string)
    ensures StringBody(EscapeChar(c) + rest) ==
      match StringBody(rest)
      case None => None
      case Some((s, after)) => Some(([c] + s, after))
  {
    if HasShortEscape(c) {
      ShortEscapedCharReads(c, rest);
    } else if NeedsUnicodeEscape(c) {
      UnicodeEscapedCharReads(c, rest);
    } else {
      assert (EscapeChar(c) + rest)[1..] == rest;
    }
  }

  /** The body of an encoded string, then the closing quote, reads back as the string. */
  lemma {:induction false} EscapeReads(s: string, rest: string)
    ensures StringBody(Escape(s) + "\"" + rest) == Some((s, rest))
    decreases |s|
  {
    if s == [] {
      assert Escape(s) + "\"" + rest == "\"" + rest;
    } else {
      var tail := Escape(s[1..]) + "\"" + rest;
      Regroup(EscapeChar(s[0]), Escape(s[1..]), "\"", rest);
      EscapeReads(s[1..], rest);
      EscapeCharReads(s[0], tail);
      assert [s[0]] + s[1..] == s;
    }
  }

  /** An encoded string reads back as one element. */
  lemma EncodedElementReads(s: string, rest: string)
    ensures Element(EncodeString(s) + rest) == Some((Str(s), rest))
  {
    var t := EncodeString(s) + rest;
    QuotedTail(s, rest);
    QuotedElement(t);
    EscapeReads(s, rest);
  }

  /** An encoded string starts with the opening quote, and after it come the escaped body and the closing quote. */
  lemma QuotedTail(s: string, rest: string)
    ensures var t := EncodeString(s) + rest;
      t != [] && t[0] == '"' && t[1..] == Escape(s) + "\"" + rest
  {
    var t := EncodeString(s) + rest;
    assert t[1..] == Escape(s) + "\"" + rest;
  }

  /** An element that opens with a quote is a string body. */
  lemma QuotedElement(t: string)
    requires t != [] && t[0] == '"'
    ensures Element(t) == AsStr(StringBody(t[1..]))
  {
  }

  /** An encoded element in front of a readable tail reads as one more element. */
  lemma ElementThenMoreReads(x: string, after: string)
    ensures ElementThenMore(EncodeString(x) + after) == Prepend(Str(x), MoreElements(after))
  {
    EncodedElementReads(x, after);
  }

  /** One `, element` pair in front of a readable tail reads as one more element. */
  lemma CommaElementReads(x: string, after: string)
    ensures MoreElements("," + EncodeString(x) + after) == Prepend(Str(x), MoreElements(after))
  {
    var t := "," + EncodeString(x) + after;
    assert t[1..] == EncodeString(x) + after;
    AfterCommaSkips(x, after);
    ElementThenMoreReads(x, after);
  }

  /** Neither the comma nor the element's opening quote is white space. */
  lemma AfterCommaSkips(x: string, after: string)
    ensures var t := "," + EncodeString(x) + after;
      SkipSpace(t) == t && SkipSpace(t[1..]) == t[1..]
  {
    var t := "," + EncodeString(x) + after;
    assert t[1] == '"';
  }

  /** The comma-separated tail of an encoding, then the bracket, reads back as those elements. */
  lemma {:induction false} EncodeRestReads(items: seq<string>, rest: string)
    ensures MoreElements(EncodeRest(items) + "]" + rest) == Some((Strs(items), rest))
    decreases |items|
  {
    var t := EncodeRest(items) + "]" + rest;
    if items == [] {
      assert t == "]" + rest;
      assert SkipSpace(t) == t;
      assert t[1..] == rest;
    } else {
      var head := "," + EncodeString(items[0]);
      var after := EncodeRest(items[1..]) + "]" + rest;
      Regroup(head, EncodeRest(items[1..]), "]", rest);
      EncodeRestReads(items[1..], rest);
      CommaElementReads(items[0], after);
      assert [Str(items[0])] + Strs(items[1..]) == Strs(items);
    }
  }

  lemma Regroup(a: string, b: string, c: string, d: string)
    ensures a + b + c + d == a + (b + c + d)
  {
  }

  /** The inside of a non-empty encoding, then the bracket, reads back as the elements. */
  lemma ArrayBodyReads(items: seq<string>)
    requires items != []
    ensures ArrayBody(Elements(items)) == Some((Strs(items), ""))
  {
    var x, xs := items[0], items[1..];
    assert ArrayBody(Elements(items)) == Some(([Str(x)] + Strs(xs), "")) by {
      ElementsSplit(items);
      EncodedArrayBody(x, xs);
    }
    assert [Str(x)] + Strs(xs) == Strs(items);
  }

  /** An encoded element, then the encoded tail and the bracket, is an array body of both. */
  lemma EncodedArrayBody(x: string, xs: seq<string>)
    ensures ArrayBody(EncodeString(x) + (EncodeRest(xs) + "]")) == Some(([Str(x)] + Strs(xs), ""))
  {
    var after := EncodeRest(xs) + "]";
    OpensWithQuote(x, after);
    ElementThenMoreReads(x, after);
    TailReads(xs);
  }

  /** An encoded element starts with a quote, which is no white space. */
  lemma OpensWithQuote(x: string, after: string)
    ensures SkipSpace(EncodeString(x) + after) == EncodeString(x) + after
    ensures (EncodeString(x) + after)[0] == '"'
  {
    assert (EncodeString(x) + after)[0] == '"';
  }

  /** A non-empty encoding is the first element, then the rest and the bracket. */
  lemma ElementsSplit(items: seq<string>)
    requires items != []
    ensures Elements(items) == EncodeString(items[0]) + (EncodeRest(items[1..]) + "]")
  {
  }

  /** The comma-separated tail of an encoding, then the bracket, reads back as those elements with nothing after. */
  lemma TailReads(items: seq<string>)
    ensures MoreElements(EncodeRest(items) + "]") == Some((Strs(items), ""))
  {
    EncodeRestReads(items, "");
    assert EncodeRest(items) + "]" + "" == EncodeRest(items) + "]";
  }

  /** The encoding of no elements is the two brackets. */
  lemma MarshalEmpty()
    ensures Marshal([]) == "[]"
  {
  }

  /** A bracket followed by a complete array body decodes to that body's elements. */
  lemma BracketedReads(inner: string, xs: seq<Item>)
    requires ArrayBody(inner) == Some((xs, ""))
    ensures Unmarshal("[" + inner) == DecodedArray(xs)
  {
    var text := "[" + inner;
    assert text[0] == '[' && text[1..] == inner;
    OpenBracketReads(text, xs);
  }

  /** A text that opens with a bracket and holds a complete array body after it decodes to that body's elements. */
  lemma OpenBracketReads(text: string, xs: seq<Item>)
    requires text != [] && text[0] == '[' && ArrayBody(text[1..]) == Some((xs, ""))
    ensures Unmarshal(text) == DecodedArray(xs)
  {
    assert SkipSpace(text) == text;
  }

  /** A closing bracket alone is an empty array body. */
  lemma ClosingBracketReads(t: string)
    requires |t| == 1 && t[0] == ']'
    ensures ArrayBody(t) == Some(([], ""))
  {
    assert t[1..] == [];
    assert !IsJsonSpace(t[0]);
  }

  /** Decoding what the encoder wrote gives back the same elements. */
  lemma MarshalRoundTrip(items: seq<string>)
    ensures Unmarshal(Marshal(items)) == DecodedArray(Strs(items))
  {
    if items == [] {
      ClosingBracketReads(Elements(items));
    } else {
      ArrayBodyReads(items);
    }
    BracketedReads(Elements(items), Strs(items));
  }

  /** Writing an all-string array over any receiver gives exactly those strings. */
  lemma ReuseOfStrings(current: seq<string>, items: seq<string>)
    ensures Reuse(current, Strs(items)) == items
  {
    var r := Reuse(current, Strs(items));
    assert forall i :: 0 <= i < |items| ==> r[i] == items[i];
  }

  /** A closing bracket ends the elements. */
  lemma ClosingBracketEnds()
    ensures MoreElements("]") == Some(([], ""))
  {
    var t := "]";
    assert SkipSpace(t) == t;
    assert t[1..] == "";
  }

  /** An array body that does not open with space or a closing bracket starts with an element. */
  lemma BodyStartsWithElement(t: string)
    requires t != [] && !IsJsonSpace(t[0]) && t[0] != ']'
    ensures ArrayBody(t) == ElementThenMore(t)
  {
    assert SkipSpace(t) == t;
  }

  /** After an element come the further elements. */
  lemma ElementThenMoreSplits(t: string, x: Item, rest: string)
    requires Element(t) == Some((x, rest))
    ensures ElementThenMore(t) == Prepend(x, MoreElements(rest))
  {
  }

  /** One element followed by the closing bracket is an array body of that one element. */
  lemma SingleElementBody(t: string, x: Item)
    requires t != [] && !IsJsonSpace(t[0]) && t[0] != ']'
    requires Element(t) == Some((x, "]"))
    ensures ArrayBody(t) == Some(([x], ""))
  {
    BodyStartsWithElement(t);
    ElementThenMoreSplits(t, x, "]");
    ClosingBracketEnds();
    PrependToEnd(x, MoreElements("]"));
  }

  /** An element in front of the empty remainder. */
  lemma PrependToEnd(x: Item, r: Option<(seq<Item>, string)>)
    requires r == Some(([], ""))
    ensures Prepend(x, r) == Some(([x], ""))
  {
    assert [x] + [] == [x];
  }

  /** `null` as an element. */
  lemma NullElement()
    ensures Element("null]") == Some((Null, "]"))
  {
    var t := "null]";
    assert "null" <= t;
    assert t[4..] == "]";
  }

  /** The number `1` as an element. */
  lemma NumberElement()
    ensures Element("1]") == Some((Mistyped, "]"))
  {
    var t := "1]";
    assert !("true" <= t) && !("false" <= t) && !("null" <= t);
    assert IntegerPart(t) == Some("]") by {
      assert Digits(t) == Some(SkipDigits(t[1..]));
      assert t[1..] == "]";
    }
    assert FractionPart("]") == Some("]");
    assert ExponentPart("]") == Some("]");
    assert SkipValue(t) == Some("]");
  }

  /**
   * The kind of the decoded value is chosen by the first character after
   * any space: an array opens with '[', `null` is the literal, and any
   * other complete value is of the wrong type for a `[]string`.
   */
  lemma UnmarshalKinds(text: string)
    ensures var r := Unmarshal(text); var u := SkipSpace(text);
      && (r.DecodedArray? ==> u != [] && u[0] == '[')
      && (r.DecodedNil? ==> "null" <= u && SkipSpace(u[4..]) == [])
      && (r.DecodedOther? ==> u != [] && u[0] != '[' && !("null" <= u) && SkipValue(u).Some?)
  {
    ArrayKind(text);
    NilKind(text);
    OtherKind(text);
  }

  /** Only text opening with '[' decodes to an array. */
  lemma ArrayKind(text: string)
    ensures Unmarshal(text).DecodedArray? ==> var u := SkipSpace(text); u != [] && u[0] == '['
  {
  }

  /** Only the literal `null` decodes to nil. */
  lemma NilKind(text: string)
    ensures Unmarshal(text).DecodedNil? ==> var u := SkipSpace(text); "null" <= u && SkipSpace(u[4..]) == []
  {
  }

  /** Any other complete value decodes as the wrong type. */
  lemma OtherKind(text: string)
    ensures Unmarshal(text).DecodedOther? ==>
      var u := SkipSpace(text); u != [] && u[0] != '[' && !("null" <= u) && SkipValue(u).Some?
  {
  }

  /** A null element keeps the element it lands on. */
  lemma ReuseUnderNull(s: string)
    ensures Reuse([s], [Null]) == [s]
  {
    var r := Reuse([s], [Null]);
    assert r[0] == s;
  }

  /** A mistyped element past the receiver's end becomes "". */
  lemma ReuseUnderMistyped()
    ensures Reuse([], [Mistyped]) == [""]
  {
    var r := Reuse([], [Mistyped]);
    assert r[0] == "";
  }

  /** An opening bracket, one element and the closing bracket decode to an array of that element. */
  lemma OneElementArray(t: string, x: Item)
    requires t != [] && !IsJsonSpace(t[0]) && t[0] != ']'
    requires Element(t) == Some((x, "]"))
    ensures Unmarshal("[" + t) == DecodedArray([x])
  {
    SingleElementBody(t, x);
    BracketedReads(t, [x]);
  }

  /** A bracketed literal is the bracket followed by the rest of it. */
  lemma BracketSplits(text: string, inner: string)
    requires text != [] && text[0] == '[' && text[1..] == inner
    ensures text == "[" + inner
  {
  }

  /** `[null]` is an array of one null element. */
  lemma NullArrayReads()
    ensures Unmarshal("[null]") == DecodedArray([Null])
  {
    NullElement();
    OneElementArray("null]", Null);
    BracketSplits("[null]", "null]");
  }

  /** `[1]` is valid JSON, but its element is a number: one mistyped element. */
  lemma NumberArrayReads()
    ensures Unmarshal("[1]") == DecodedArray([Mistyped])
  {
    NumberElement();
    OneElementArray("1]", Mistyped);
    BracketSplits("[1]", "1]");
  }
}
