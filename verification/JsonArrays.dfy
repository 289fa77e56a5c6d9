/** The JSON text of an array of strings, as the identity keys of receipts are written:
    non-ASCII kept, `", "` between items, the escapes of section 7 of RFC 8259. */
module JsonArrays {
  import opened Options

  /** One lower-case hexadecimal digit. */
  function HexDigit(n: nat): char
    requires n < 16
  {
    "0123456789abcdef"[n]
  }

  function HexValue(c: char): Option<nat> {
    if '0' <= c <= '9' then Some((c as int) - ('0' as int))
    else if 'a' <= c <= 'f' then Some((c as int) - ('a' as int) + 10)
    else if 'A' <= c <= 'F' then Some((c as int) - ('A' as int) + 10)
    else None
  }

  /** The escaped spelling of one character. */
  function EscapeChar(c: char): string {
    if c == '\"' then "\\\""
    else if c == '\\' then "\\\\"
    else if c == '\n' then "\\n"
    else if c == '\r' then "\\r"
    else if c == '\t' then "\\t"
    else if c as int == 8 then "\\b"
    else if c as int == 12 then "\\f"
    else if (c as int) < 0x20 then "\\u00" + [HexDigit(c as int / 16), HexDigit(c as int % 16)]
    else [c]
  }

  function Escape(text: string): string {
    if text == "" then "" else EscapeChar(text[0]) + Escape(text[1..])
  }

  function Quote(text: string): string {
    "\"" + Escape(text) + "\""
  }

  /** The items after the opening bracket, through the closing one. */
  function EncodeItems(items: seq<string>): string
    requires items != []
    decreases |items|, 1
  {
    Quote(items[0]) + ItemsTail(items)
  }

  /** What follows the first item. */
  function ItemsTail(items: seq<string>): string
    requires items != []
    decreases |items|, 0
  {
    if |items| == 1 then "]" else ", " + EncodeItems(items[1..])
  }

  function Encode(items: seq<string>): string {
    if items == [] then "[]" else "[" + EncodeItems(items)
  }

  // ---- a reader of the same texts, the partner of the writer ----

  /** One character and how many code points it was spelled with. */
  function DecodeChar(s: string): Option<(char, nat)> {
    if s == "" || (s[0] as int) < 0x20 || s[0] == '\"' then None
    else if s[0] != '\\' then Some((s[0], 1))
    else if |s| < 2 then None
    else if s[1] == 'u' then DecodeUnicode(s)
    else match s[1]
      case '\"' => Some(('\"', 2))
      case '\\' => Some(('\\', 2))
      case '/' => Some(('/', 2))
      case 'b' => Some((8 as char, 2))
      case 'f' => Some((12 as char, 2))
      case 'n' => Some(('\n', 2))
      case 'r' => Some(('\r', 2))
      case 't' => Some(('\t', 2))
      case _ => None
  }

  /** A `\uXXXX` escape of a code point that is not a surrogate half. */
  function DecodeUnicode(s: string): Option<(char, nat)> {
    if |s| < 6 then None
    else match (HexValue(s[2]), HexValue(s[3]), HexValue(s[4]), HexValue(s[5]))
      case (Some(a), Some(b), Some(c), Some(d)) =>
        var code := ((a * 16 + b) * 16 + c) * 16 + d;
        if 0 <= code < 0xD800 then Some((code as char, 6)) else None
      case _ => None
  }

  /** The text up to the closing quote, and what follows it. */
  function DecodeBody(s: string): (r: Option<(string, string)>)
    ensures r.Some? ==> |r.value.1| < |s|
    decreases |s|
  {
    if s != "" && s[0] == '\"' then Some(("", s[1..]))
    else match DecodeChar(s)
      case None => None
      case Some((c, n)) =>
        if n == 0 || n > |s| then None
        else match DecodeBody(s[n..])
          case None => None
          case Some((text, rest)) => Some(([c] + text, rest))
  }

  function DecodeItems(s: string): Option<seq<string>>
    decreases |s|
  {
    if s == "" || s[0] != '\"' then None
    else match DecodeBody(s[1..])
      case None => None
      case Some((text, rest)) =>
        if rest == "]" then Some([text])
        else if |rest| < 2 || rest[0] != ',' || rest[1] != ' ' then None
        else match DecodeItems(rest[2..])
          case None => None
          case Some(items) => Some([text] + items)
  }

  function Decode(s: string): Option<seq<string>> {
    if s == "[]" then Some([])
    else if s != "" && s[0] == '[' then DecodeItems(s[1..])
    else None
  }

  /** The short escapes of section 7 of RFC 8259, and a character that needs none. */
  lemma ReadsShortEscapes(letter: char, plain: char)
    ensures DecodeChar(['\\', letter]) ==
      if letter in "\"\\/" then Some((letter, 2))
      else if letter == 'b' then Some((0x08 as char, 2))
      else if letter == 'f' then Some((0x0C as char, 2))
      else if letter == 'n' then Some((0x0A as char, 2))
      else if letter == 'r' then Some((0x0D as char, 2))
      else if letter == 't' then Some((0x09 as char, 2))
      else None
    ensures plain as int >= 0x20 && plain != '\"' && plain != '\\' ==> DecodeChar([plain]) == Some((plain, 1))
  {
  }

  lemma CharRoundTrip(c: char, tail: string)
    ensures |EscapeChar(c)| > 0 && EscapeChar(c)[0] != '\"'
    ensures DecodeChar(EscapeChar(c) + tail) == Some((c, |EscapeChar(c)|))
  {
    var s := EscapeChar(c) + tail;
    if (c as int) < 0x20 && |EscapeChar(c)| == 6 {
      assert s[..6] == EscapeChar(c);
      assert HexValue(s[4]) == Some(c as int / 16);
      assert HexValue(s[5]) == Some(c as int % 16);
    }
  }

  lemma {:induction false} BodyRoundTrip(text: string, rest: string)
    ensures DecodeBody(Escape(text) + "\"" + rest) == Some((text, rest))
  {
    if text == "" {
      assert Escape(text) + "\"" + rest == "\"" + rest;
    } else {
      var tail := Escape(text[1..]) + "\"" + rest;
      var s := Escape(text) + "\"" + rest;
      assert s == EscapeChar(text[0]) + tail;
      CharRoundTrip(text[0], tail);
      assert s[|EscapeChar(text[0])|..] == tail;
      BodyRoundTrip(text[1..], rest);
      assert [text[0]] + text[1..] == text;
    }
  }

  lemma {:induction false} ItemsRoundTrip(items: seq<string>)
    requires items != []
    ensures DecodeItems(EncodeItems(items)) == Some(items)
  {
    var rest := ItemsTail(items);
    QuotedStart(Escape(items[0]), rest);
    BodyRoundTrip(items[0], rest);
    if |items| == 1 {
      assert items == [items[0]];
    } else {
      ItemsRoundTrip(items[1..]);
      assert rest[2..] == EncodeItems(items[1..]);
      assert items == [items[0]] + items[1..];
    }
  }

  lemma QuotedStart(body: string, rest: string)
    ensures ("\"" + body + "\"" + rest)[0] == '\"'
    ensures ("\"" + body + "\"" + rest)[1..] == body + "\"" + rest
  {
  }

  /** Reading back what was written gives the same array, whatever characters it holds. */
  lemma RoundTrip(items: seq<string>)
    ensures Decode(Encode(items)) == Some(items)
  {
    if items != [] {
      assert Encode(items)[1..] == EncodeItems(items);
      ItemsRoundTrip(items);
    }
  }

  /** The serialization separates arrays exactly. */
  lemma EncodeIsInjective(a: seq<string>, b: seq<string>)
    ensures Encode(a) == Encode(b) <==> a == b
  {
    RoundTrip(a);
    RoundTrip(b);
  }

  /** The items joined by line breaks. */
  function JoinLines(items: seq<string>): string {
    if items == [] then "" else if |items| == 1 then items[0] else items[0] + "\n" + JoinLines(items[1..])
  }

  /** Joining confuses two lists once an item holds a line break of its own. */
  lemma JoinLinesIsNotInjective()
    ensures JoinLines(["a\nb"]) == JoinLines(["a", "b"]) && Encode(["a\nb"]) != Encode(["a", "b"])
  {
    EncodeIsInjective(["a\nb"], ["a", "b"]);
    assert JoinLines(["a", "b"]) == "a" + "\n" + JoinLines(["b"]);
    assert |["a\nb"]| == 1 && |["a", "b"]| == 2;
  }
}
