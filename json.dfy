/**
  The text `JSON.stringify` produces for a proxy payload `{u, h}`, and a parser
  for that text. Strings are quoted as ECMAScript's QuoteJSONString does;
  object members keep their insertion order.
*/
module Json {
  import opened Wrappers

  /**
    The plaintext behind a proxy token: the upstream URL and the headers to replay, in insertion order.
    A list allows repeated header names, which a JavaScript object cannot hold; the adapters only
    build fixed lists of two or three distinct names.
  */
  datatype Payload = Payload(u: string, h: seq<(string, string)>)

  function HexDigit(v: int): char
    requires 0 <= v < 16
  {
    if v < 10 then ('0' as int + v) as char else ('a' as int + v - 10) as char
  }

  function HexValue(c: char): (r: Option<int>)
    ensures r.Some? ==> 0 <= r.value < 16
  {
    if '0' <= c <= '9' then Some(c as int - '0' as int)
    else if 'a' <= c <= 'f' then Some(c as int - 'a' as int + 10)
    else if 'A' <= c <= 'F' then Some(c as int - 'A' as int + 10)
    else None
  }

  /** The JSON form of one character inside a string literal. */
  function EscapeChar(c: char): (e: string)
    ensures 1 <= |e| && (e[0] == '\\' <==> |e| > 1)
    ensures e[0] != '"' && e[0] as int >= 0x20
  {
    if c == '\U{0008}' then "\\b"
    else if c == '\t' then "\\t"
    else if c == '\n' then "\\n"
    else if c == '\U{000C}' then "\\f"
    else if c == '\r' then "\\r"
    else if c == '"' then "\\\""
    else if c == '\\' then "\\\\"
    else if (c as int) < 0x20 then "\\u00" + [HexDigit(c as int / 16), HexDigit(c as int % 16)]
    else [c]
  }

  function Escape(s: string): string {
    if s == [] then "" else EscapeChar(s[0]) + Escape(s[1..])
  }

  /** `JSON.stringify` of a string. */
  function Quote(s: string): string {
    "\"" + Escape(s) + "\""
  }

  function Member(kv: (string, string)): string {
    Quote(kv.0) + ":" + Quote(kv.1)
  }

  function Members(h: seq<(string, string)>): string {
    if h == [] then ""
    else if |h| == 1 then Member(h[0])
    else Member(h[0]) + "," + Members(h[1..])
  }

  /** `JSON.stringify({u, h})` for the payload objects both providers build. */
  function Stringify(p: Payload): string {
    "{\"u\":" + (Quote(p.u) + (",\"h\":{" + (Members(p.h) + "}}")))
  }

  /** The character a short escape `\x` stands for. */
  function ShortEscape(c: char): Option<char> {
    if c == 'b' then Some('\U{0008}')
    else if c == 't' then Some('\t')
    else if c == 'n' then Some('\n')
    else if c == 'f' then Some('\U{000C}')
    else if c == 'r' then Some('\r')
    else if c == '"' then Some('"')
    else if c == '\\' then Some('\\')
    else if c == '/' then Some('/')
    else None
  }

  /** The code unit of `\uXXXX`; None unless four hex digits follow and they name a scalar value. */
  function UnicodeEscape(s: string): Option<char> {
    if |s| < 4 then None
    else
      var d0, d1, d2, d3 := HexValue(s[0]), HexValue(s[1]), HexValue(s[2]), HexValue(s[3]);
      if d0.None? || d1.None? || d2.None? || d3.None? then None
      else
        var cp := ((d0.value * 16 + d1.value) * 16 + d2.value) * 16 + d3.value;
        if cp < 0xD800 || 0xE000 <= cp then Some(cp as char) else None
  }

  /**
    Reads the characters of a string literal up to its closing quote; returns
    the decoded characters and the text after the quote.
  */
  function ParseChars(s: string): (r: Option<(string, string)>)
    ensures r.Some? ==> |r.value.1| < |s|
    decreases |s|
  {
    if s == [] then None
    else if s[0] == '"' then Some(([], s[1..]))
    else if (s[0] as int) < 0x20 then None
    else if s[0] == '\\' then
      if |s| < 2 then None
      else if s[1] == 'u' then
        match UnicodeEscape(s[2..])
        case None => None
        case Some(c) =>
          match ParseChars(s[6..])
          case None => None
          case Some((t, rest)) => Some(([c] + t, rest))
      else
        match ShortEscape(s[1])
        case None => None
        case Some(c) =>
          match ParseChars(s[2..])
          case None => None
          case Some((t, rest)) => Some(([c] + t, rest))
    else
      match ParseChars(s[1..])
      case None => None
      case Some((t, rest)) => Some(([s[0]] + t, rest))
  }

  /** A string literal at the front of `s`: its value and the text after it. */
  function ParseString(s: string): (r: Option<(string, string)>)
    ensures r.Some? ==> |r.value.1| < |s|
  {
    if s != [] && s[0] == '"' then ParseChars(s[1..]) else None
  }

  /** `"key":"value"` at the front of `s`. */
  function ParseMember(s: string): (r: Option<((string, string), string)>)
    ensures r.Some? ==> |r.value.1| < |s|
  {
    match ParseString(s)
    case None => None
    case Some((k, rest)) =>
      if rest == [] || rest[0] != ':' then None
      else
        match ParseString(rest[1..])
        case None => None
        case Some((v, after)) => Some(((k, v), after))
  }

  /** One or more members separated by `,` and closed by `}`. */
  function ParseMemberList(s: string): (r: Option<(seq<(string, string)>, string)>)
    ensures r.Some? ==> |r.value.1| < |s|
    decreases |s|
  {
    match ParseMember(s)
    case None => None
    case Some((kv, rest)) =>
      if rest == [] then None
      else if rest[0] == '}' then Some(([kv], rest[1..]))
      else if rest[0] == ',' then
        match ParseMemberList(rest[1..])
        case None => None
        case Some((more, after)) => Some(([kv] + more, after))
      else None
  }

  /** The members of an object whose `{` has been read, and the text after its `}`. */
  function ParseObjectBody(s: string): Option<(seq<(string, string)>, string)> {
    if s != [] && s[0] == '}' then Some(([], s[1..])) else ParseMemberList(s)
  }

  /** Reads back the text `Stringify` produces; None for anything else. */
  function Parse(text: string): Option<Payload> {
    var open := "{\"u\":";
    var mid := ",\"h\":{";
    if !(open <= text) then None
    else
      match ParseString(text[|open|..])
      case None => None
      case Some((u, rest)) =>
        if !(mid <= rest) then None
        else
          match ParseObjectBody(rest[|mid|..])
          case None => None
          case Some((h, after)) => if after == "}" then Some(Payload(u, h)) else None
  }

  lemma HexDigitValue(v: int)
    requires 0 <= v < 16
    ensures HexValue(HexDigit(v)) == Some(v)
  {
  }

  /** A control character without a short escape reads back from its `\u00XX` form. */
  lemma ParseControlEscape(c: char, t: string)
    requires (c as int) < 0x20 && c !in "\U{0008}\t\n\U{000C}\r"
    requires ParseChars(t).Some?
    ensures ParseChars(EscapeChar(c) + t) == Some(([c] + ParseChars(t).value.0, ParseChars(t).value.1))
  {
    var hi, lo := c as int / 16, c as int % 16;
    assert hi * 16 + lo == c as int;
    HexDigitValue(hi);
    HexDigitValue(lo);
    var s := EscapeChar(c) + t;
    assert s[2..][..4] == ['0', '0', HexDigit(hi), HexDigit(lo)];
    assert UnicodeEscape(s[2..]) == Some(c);
    assert s[6..] == t;
  }

  /** A character with a two-character escape reads back from it. */
  lemma ParseShortEscape(c: char, t: string)
    requires c in "\U{0008}\t\n\U{000C}\r\"\\"
    requires ParseChars(t).Some?
    ensures ParseChars(EscapeChar(c) + t) == Some(([c] + ParseChars(t).value.0, ParseChars(t).value.1))
  {
    var e := EscapeChar(c);
    assert |e| == 2 && e[0] == '\\' && ShortEscape(e[1]) == Some(c);
    assert (e + t)[2..] == t;
  }

  /** The escape of one character reads back as that character. */
  lemma ParseEscapeChar(c: char, t: string)
    requires ParseChars(t).Some?
    ensures ParseChars(EscapeChar(c) + t) == Some(([c] + ParseChars(t).value.0, ParseChars(t).value.1))
  {
    if c in "\U{0008}\t\n\U{000C}\r\"\\" {
      ParseShortEscape(c, t);
    } else if (c as int) < 0x20 {
      ParseControlEscape(c, t);
    } else {
      assert EscapeChar(c) == [c];
      assert ([c] + t)[1..] == t;
    }
  }

  /** The body of a quoted string reads back as the string, leaving what follows the closing quote. */
  lemma {:induction false} ParseEscape(s: string, rest: string)
    ensures ParseChars(Escape(s) + "\"" + rest) == Some((s, rest))
    decreases |s|
  {
    if s == [] {
      assert Escape(s) + "\"" + rest == "\"" + rest;
    } else {
      var t := Escape(s[1..]) + "\"" + rest;
      ParseEscape(s[1..], rest);
      ParseEscapeChar(s[0], t);
      assert Escape(s) + "\"" + rest == EscapeChar(s[0]) + t;
      assert [s[0]] + s[1..] == s;
    }
  }

  lemma ParseQuote(s: string, rest: string)
    ensures ParseString(Quote(s) + rest) == Some((s, rest))
  {
    ParseEscape(s, rest);
    assert (Quote(s) + rest)[1..] == Escape(s) + "\"" + rest;
  }

  lemma ParseMemberOf(kv: (string, string), rest: string)
    ensures ParseMember(Member(kv) + rest) == Some((kv, rest))
  {
    var s := Member(kv) + rest;
    var afterKey := ":" + Quote(kv.1) + rest;
    assert s == Quote(kv.0) + afterKey;
    ParseQuote(kv.0, afterKey);
    assert afterKey[1..] == Quote(kv.1) + rest;
    ParseQuote(kv.1, rest);
  }

  lemma ParseLastMember(kv: (string, string), rest: string)
    ensures ParseMemberList(Member(kv) + "}" + rest) == Some(([kv], rest))
  {
    var after := "}" + rest;
    ParseMemberOf(kv, after);
    assert Member(kv) + "}" + rest == Member(kv) + after;
    assert after[1..] == rest;
  }

  lemma ParseNextMember(kv: (string, string), t: string)
    requires ParseMemberList(t).Some?
    ensures ParseMemberList(Member(kv) + "," + t)
         == Some(([kv] + ParseMemberList(t).value.0, ParseMemberList(t).value.1))
  {
    var after := "," + t;
    ParseMemberOf(kv, after);
    assert Member(kv) + "," + t == Member(kv) + after;
    assert after[1..] == t;
  }

  /** A list of two or more members is the first, a comma, and the rest. */
  lemma MembersSplit(h: seq<(string, string)>, rest: string)
    requires |h| >= 2
    ensures Members(h) + "}" + rest == Member(h[0]) + "," + (Members(h[1..]) + "}" + rest)
  {
    var lead, others := Member(h[0]) + ",", Members(h[1..]);
    assert Members(h) == lead + others;
    calc {
      Members(h) + "}" + rest;
      (lead + others) + "}" + rest;
      { ConcatAssoc(lead, others, "}"); }
      (lead + (others + "}")) + rest;
      { ConcatAssoc(lead, others + "}", rest); }
      lead + (others + "}" + rest);
    }
  }

  lemma ConcatAssoc(a: string, b: string, c: string)
    ensures (a + b) + c == a + (b + c)
  {
  }

  lemma {:induction false} ParseMembers(h: seq<(string, string)>, rest: string)
    requires h != []
    ensures ParseMemberList(Members(h) + "}" + rest) == Some((h, rest))
    decreases |h|
  {
    if |h| == 1 {
      ParseLastMember(h[0], rest);
      assert [h[0]] == h;
    } else {
      var tail := Members(h[1..]) + "}" + rest;
      ParseMembers(h[1..], rest);
      ParseNextMember(h[0], tail);
      MembersSplit(h, rest);
      assert [h[0]] + h[1..] == h;
    }
  }

  lemma ParseObject(h: seq<(string, string)>, rest: string)
    ensures ParseObjectBody(Members(h) + "}" + rest) == Some((h, rest))
  {
    if h == [] {
      assert Members(h) + "}" + rest == "}" + rest;
      assert ("}" + rest)[1..] == rest;
    } else {
      ParseMembers(h, rest);
      assert Members(h) != [] by { assert Members(h)[0] == '"'; }
      assert (Members(h) + "}" + rest)[0] == '"';
    }
  }

  /** How `Parse` takes its input apart. */
  lemma ParseSteps(text: string, u: string, rest: string, h: seq<(string, string)>)
    requires "{\"u\":" <= text
    requires ParseString(text[5..]) == Some((u, rest))
    requires ",\"h\":{" <= rest
    requires ParseObjectBody(rest[6..]) == Some((h, "}"))
    ensures Parse(text) == Some(Payload(u, h))
  {
  }

  /** Parsing the serialised payload gives back the same URL and the same headers in the same order. */
  lemma ParseStringify(p: Payload)
    ensures Parse(Stringify(p)) == Some(p)
  {
    var body := Members(p.h) + "}}";
    var tail := ",\"h\":{" + body;
    var text := Stringify(p);
    assert text[5..] == Quote(p.u) + tail;
    ParseQuote(p.u, tail);
    assert tail[6..] == body;
    assert body == Members(p.h) + "}" + "}";
    ParseObject(p.h, "}");
    ParseSteps(text, p.u, tail, p.h);
  }
}
