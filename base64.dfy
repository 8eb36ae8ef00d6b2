/**
  Base64 as `btoa` produces it (section 4 of RFC 4648, with `=` padding), the
  base64url rewriting the providers apply to it (`+` to `-`, `/` to `_`,
  section 5) and the removal of trailing `=` (section 3.2), together with the
  decoders that undo each step.
*/
module Base64 {
  import opened Wrappers
  import opened Bytes

  type sextet = v: int | 0 <= v < 64

  /** The standard alphabet of RFC 4648, Table 1. */
  function StdChar(v: sextet): char {
    if v < 26 then ('A' as int + v) as char
    else if v < 52 then ('a' as int + v - 26) as char
    else if v < 62 then ('0' as int + v - 52) as char
    else if v == 62 then '+'
    else '/'
  }

  function StdValue(c: char): Option<sextet> {
    if 'A' <= c <= 'Z' then Some(c as int - 'A' as int)
    else if 'a' <= c <= 'z' then Some(c as int - 'a' as int + 26)
    else if '0' <= c <= '9' then Some(c as int - '0' as int + 52)
    else if c == '+' then Some(62)
    else if c == '/' then Some(63)
    else None
  }

  predicate IsStdChar(c: char) {
    StdValue(c).Some?
  }

  /** The characters of the base64url alphabet (RFC 4648, Table 2). */
  predicate IsUrlChar(c: char) {
    ('A' <= c <= 'Z') || ('a' <= c <= 'z') || ('0' <= c <= '9') || c == '-' || c == '_'
  }

  lemma StdValueOfChar(v: sextet)
    ensures StdValue(StdChar(v)) == Some(v)
  {
  }

  /** Three bytes become four characters. */
  function Quad(b0: byte, b1: byte, b2: byte): (q: string)
    ensures |q| == 4 && forall k :: 0 <= k < 4 ==> IsStdChar(q[k])
  {
    StdValueOfChar(b0 / 4);
    StdValueOfChar((b0 % 4) * 16 + b1 / 16);
    StdValueOfChar((b1 % 16) * 4 + b2 / 64);
    StdValueOfChar(b2 % 64);
    [StdChar(b0 / 4), StdChar((b0 % 4) * 16 + b1 / 16), StdChar((b1 % 16) * 4 + b2 / 64), StdChar(b2 % 64)]
  }

  /** The padded base64 text of `bs`, as `btoa` returns it for a binary string. */
  function Encode(bs: seq<byte>): (s: string)
    ensures |s| == 4 * ((|bs| + 2) / 3)
    ensures |s| % 4 == 0
    decreases |bs|
  {
    if |bs| >= 3 then
      Quad(bs[0], bs[1], bs[2]) + Encode(bs[3..])
    else if |bs| == 2 then
      Quad(bs[0], bs[1], 0)[..3] + "="
    else if |bs| == 1 then
      Quad(bs[0], 0, 0)[..2] + "=="
    else
      ""
  }

  /** Three bytes from four sextets. */
  function Unquad(v0: sextet, v1: sextet, v2: sextet, v3: sextet): seq<byte> {
    [v0 * 4 + v1 / 16, (v1 % 16) * 16 + v2 / 4, (v2 % 4) * 64 + v3]
  }

  /** Decodes padded base64 text; None when it is not a sequence of well-formed quanta. */
  function Decode(s: string): Option<seq<byte>>
    decreases |s|
  {
    if s == [] then Some([])
    else if |s| < 4 then None
    else
      var v0, v1, v2, v3 := StdValue(s[0]), StdValue(s[1]), StdValue(s[2]), StdValue(s[3]);
      if v0.None? || v1.None? then None
      else if |s| == 4 && s[2] == '=' && s[3] == '=' then
        Some(Unquad(v0.value, v1.value, 0, 0)[..1])
      else if v2.None? then None
      else if |s| == 4 && s[3] == '=' then
        Some(Unquad(v0.value, v1.value, v2.value, 0)[..2])
      else if v3.None? then None
      else
        match Decode(s[4..])
        case None => None
        case Some(tail) => Some(Unquad(v0.value, v1.value, v2.value, v3.value) + tail)
  }

  lemma UnquadQuad(b0: byte, b1: byte, b2: byte)
    ensures Unquad(b0 / 4, (b0 % 4) * 16 + b1 / 16, (b1 % 16) * 4 + b2 / 64, b2 % 64) == [b0, b1, b2]
  {
    var v1 := (b0 % 4) * 16 + b1 / 16;
    var v2 := (b1 % 16) * 4 + b2 / 64;
    assert v1 / 16 == b0 % 4 && v1 % 16 == b1 / 16;
    assert v2 / 4 == b1 % 16 && v2 % 4 == b2 / 64;
  }

  /** A full quantum in front of decodable text decodes to its three bytes. */
  lemma DecodeQuad(b0: byte, b1: byte, b2: byte, t: string)
    requires Decode(t).Some?
    ensures Decode(Quad(b0, b1, b2) + t) == Some([b0, b1, b2] + Decode(t).value)
  {
    var s := Quad(b0, b1, b2) + t;
    UnquadQuad(b0, b1, b2);
    StdValueOfChar(b0 / 4);
    StdValueOfChar((b0 % 4) * 16 + b1 / 16);
    StdValueOfChar((b1 % 16) * 4 + b2 / 64);
    StdValueOfChar(b2 % 64);
    assert s[4..] == t;
  }

  /** The final quantum of a two-byte tail, `xyz=`. */
  lemma DecodeTwo(b0: byte, b1: byte)
    ensures Decode(Encode([b0, b1])) == Some([b0, b1])
  {
    UnquadQuad(b0, b1, 0);
    StdValueOfChar(b0 / 4);
    StdValueOfChar((b0 % 4) * 16 + b1 / 16);
    StdValueOfChar((b1 % 16) * 4);
    var q := Quad(b0, b1, 0);
    var s := Encode([b0, b1]);
    assert s == [q[0], q[1], q[2], '='];
    assert StdValue(s[0]) == Some(b0 / 4);
    assert StdValue(s[1]) == Some((b0 % 4) * 16 + b1 / 16);
    assert StdValue(s[2]) == Some((b1 % 16) * 4);
    var u := Unquad(b0 / 4, (b0 % 4) * 16 + b1 / 16, (b1 % 16) * 4, 0);
    assert u == [b0, b1, 0];
    assert Decode(s) == Some(u[..2]);
    assert u[..2] == [b0, b1];
  }

  /** The final quantum of a one-byte tail, `xy==`. */
  lemma DecodeOne(b0: byte)
    ensures Decode(Encode([b0])) == Some([b0])
  {
    UnquadQuad(b0, 0, 0);
    StdValueOfChar(b0 / 4);
    StdValueOfChar((b0 % 4) * 16);
    var q := Quad(b0, 0, 0);
    var s := Encode([b0]);
    assert s == [q[0], q[1], '=', '='];
    assert StdValue(s[0]) == Some(b0 / 4);
    assert StdValue(s[1]) == Some((b0 % 4) * 16);
    var u := Unquad(b0 / 4, (b0 % 4) * 16, 0, 0);
    assert u == [b0, 0, 0];
    assert Decode(s) == Some(u[..1]);
    assert u[..1] == [b0];
  }

  /** Decoding the base64 text of any byte sequence gives it back. */
  lemma {:induction false} DecodeEncode(bs: seq<byte>)
    ensures Decode(Encode(bs)) == Some(bs)
    decreases |bs|
  {
    if |bs| >= 3 {
      DecodeEncode(bs[3..]);
      DecodeQuad(bs[0], bs[1], bs[2], Encode(bs[3..]));
      assert bs == [bs[0], bs[1], bs[2]] + bs[3..];
    } else if |bs| == 2 {
      DecodeTwo(bs[0], bs[1]);
      assert bs == [bs[0], bs[1]];
    } else if |bs| == 1 {
      DecodeOne(bs[0]);
      assert bs == [bs[0]];
    }
  }

  /** One character of `.replace(/\+/g, '-').replace(/\//g, '_')`. */
  function UrlSafeChar(c: char): char {
    if c == '+' then '-' else if c == '/' then '_' else c
  }

  /** One character of the reverse substitution. */
  function StdCharOf(c: char): char {
    if c == '-' then '+' else if c == '_' then '/' else c
  }

  /** `.replace(/\+/g, '-').replace(/\//g, '_')`: switch to the URL-safe alphabet. */
  function ToUrlSafe(s: string): (r: string)
    ensures |r| == |s|
  {
    seq(|s|, k requires 0 <= k < |s| => UrlSafeChar(s[k]))
  }

  /** The reverse substitution a consumer applies before decoding. */
  function FromUrlSafe(s: string): (r: string)
    ensures |r| == |s|
  {
    seq(|s|, k requires 0 <= k < |s| => StdCharOf(s[k]))
  }

  /** `.replace(/=+$/g, '')`: drop the run of `=` at the end of the text. */
  function StripPadding(s: string): (r: string)
    ensures r <= s
    ensures r == [] || r[|r| - 1] != '='
    ensures forall k :: |r| <= k < |s| ==> s[k] == '='
  {
    if s != [] && s[|s| - 1] == '=' then StripPadding(s[..|s| - 1]) else s
  }

  /** Restores the padding a consumer needs; None for a length no base64 text can have. */
  function Repad(s: string): (r: Option<string>)
    ensures r.Some? <==> |s| % 4 != 1
    ensures r.Some? ==> |r.value| % 4 == 0 && s <= r.value
  {
    if |s| % 4 == 0 then Some(s)
    else if |s| % 4 == 2 then Some(s + "==")
    else if |s| % 4 == 3 then Some(s + "=")
    else None
  }

  /** The `=` characters `Encode` appends for a tail of `n % 3` bytes. */
  function PadLength(n: nat): nat {
    (3 - n % 3) % 3
  }

  /** Three more bytes need the same padding. */
  lemma PadLengthStep(n: nat)
    requires n >= 3
    ensures PadLength(n) == PadLength(n - 3)
  {
    assert n % 3 == (n - 3) % 3;
  }

  /** The padded text is alphabet characters followed by exactly `PadLength` `=`. */
  lemma {:induction false} EncodeShape(bs: seq<byte>)
    ensures PadLength(|bs|) <= |Encode(bs)|
    ensures forall k :: 0 <= k < |Encode(bs)| - PadLength(|bs|) ==> IsStdChar(Encode(bs)[k])
    ensures forall k :: |Encode(bs)| - PadLength(|bs|) <= k < |Encode(bs)| ==> Encode(bs)[k] == '='
    decreases |bs|
  {
    if |bs| >= 3 {
      EncodeShape(bs[3..]);
      PadLengthStep(|bs|);
      var q := Quad(bs[0], bs[1], bs[2]);
      assert Encode(bs) == q + Encode(bs[3..]);
      forall k | 0 <= k < |Encode(bs)| - PadLength(|bs|) ensures IsStdChar(Encode(bs)[k]) {
        if k >= 4 { assert Encode(bs)[k] == Encode(bs[3..])[k - 4]; }
      }
    } else if |bs| == 2 {
      var q := Quad(bs[0], bs[1], 0);
      assert Encode(bs) == [q[0], q[1], q[2], '='];
    } else if |bs| == 1 {
      var q := Quad(bs[0], 0, 0);
      assert Encode(bs) == [q[0], q[1], '=', '='];
    }
  }

  /** Stripping removes exactly a trailing run of `=` that follows a non-`=` character. */
  lemma {:induction false} StripPaddingExact(t: string, m: nat)
    requires m <= |t|
    requires m == 0 || t[m - 1] != '='
    requires forall k :: m <= k < |t| ==> t[k] == '='
    ensures StripPadding(t) == t[..m]
    decreases |t| - m
  {
    if |t| > m {
      StripPaddingExact(t[..|t| - 1], m);
      assert t[..|t| - 1][..m] == t[..m];
    } else {
      assert t == t[..m];
    }
  }

  /** The base64url token without padding: what `base64UrlEncodeString` returns for these bytes. */
  function UrlEncode(bs: seq<byte>): string {
    StripPadding(ToUrlSafe(Encode(bs)))
  }

  /** The consumer's inverse: re-pad, undo the substitution, decode. */
  function UrlDecode(token: string): Option<seq<byte>> {
    match Repad(token)
    case None => None
    case Some(padded) => Decode(FromUrlSafe(padded))
  }

  /** Before re-padding, the token is the url-safe form of the unpadded base64 text. */
  lemma UrlEncodeIsBody(bs: seq<byte>)
    ensures var s := Encode(bs);
      UrlEncode(bs) == ToUrlSafe(s)[..|s| - PadLength(|bs|)]
  {
    var s := Encode(bs);
    var m := |s| - PadLength(|bs|);
    EncodeShape(bs);
    var t := ToUrlSafe(s);
    if m > 0 {
      assert IsStdChar(s[m - 1]);
    }
    StripPaddingExact(t, m);
  }

  /** Every character of a token is in the base64url alphabet: no `+`, `/` or `=`. */
  lemma UrlEncodeAlphabet(bs: seq<byte>)
    ensures forall k :: 0 <= k < |UrlEncode(bs)| ==> IsUrlChar(UrlEncode(bs)[k])
  {
    var s := Encode(bs);
    EncodeShape(bs);
    UrlEncodeIsBody(bs);
    forall k | 0 <= k < |UrlEncode(bs)| ensures IsUrlChar(UrlEncode(bs)[k]) {
      assert IsStdChar(s[k]);
    }
  }

  /** Re-padding puts back the `=` run that stripping removed. */
  lemma RepadRestores(t: string, pad: string)
    requires (|t| + |pad|) % 4 == 0 && |pad| <= 2
    requires forall k :: 0 <= k < |pad| ==> pad[k] == '='
    ensures Repad(t) == Some(t + pad)
  {
    if |pad| == 1 { assert pad == "="; } else if |pad| == 2 { assert pad == "=="; } else { assert pad == [] && t + pad == t; }
  }

  /** Undoing the substitution on alphabet characters followed by padding gives the padded text. */
  lemma FromUrlSafeRestores(s: string, m: nat)
    requires m <= |s|
    requires forall k :: 0 <= k < m ==> IsStdChar(s[k])
    requires forall k :: m <= k < |s| ==> s[k] == '='
    ensures FromUrlSafe(ToUrlSafe(s)[..m] + s[m..]) == s
  {
    var u := ToUrlSafe(s)[..m] + s[m..];
    var back := FromUrlSafe(u);
    forall k | 0 <= k < |s| ensures back[k] == s[k] {
      if k < m {
        assert u[k] == UrlSafeChar(s[k]);
        assert IsStdChar(s[k]);
      } else {
        assert u[k] == s[k];
      }
    }
  }

  /** Re-padding, undoing the substitution and decoding a token gives the bytes back. */
  lemma UrlDecodeEncode(bs: seq<byte>)
    ensures UrlDecode(UrlEncode(bs)) == Some(bs)
  {
    var s := Encode(bs);
    var m := |s| - PadLength(|bs|);
    var token := UrlEncode(bs);
    var pad := s[m..];
    assert token == ToUrlSafe(s)[..m] by { UrlEncodeIsBody(bs); }
    assert FromUrlSafe(token + pad) == s by {
      EncodeShape(bs);
      FromUrlSafeRestores(s, m);
    }
    assert Repad(token) == Some(token + pad) by {
      EncodeShape(bs);
      RepadRestores(token, pad);
    }
    calc {
      UrlDecode(token);
      Decode(FromUrlSafe(token + pad));
      Decode(s);
      { DecodeEncode(bs); }
      Some(bs);
    }
  }
}
