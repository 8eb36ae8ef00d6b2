/**
  The payload codec: `base64UrlEncodeString` (identical in both providers) and
  the proxy path `/hls/<token>` built from `JSON.stringify({u, h})`, with the
  decoder the streaming proxy applies to get `{u, h}` back.
*/
module Codec {
  import opened Wrappers
  import opened Bytes
  import Utf8
  import Base64
  import Json

  /** A binary string: one character per byte, code point equal to the byte. */
  predicate IsBinary(s: string) {
    forall k :: 0 <= k < |s| ==> (s[k] as int) < 256
  }

  /** The bytes a binary string stands for, as `btoa` reads them. */
  function BinaryBytes(s: string): (bs: seq<byte>)
    requires IsBinary(s)
    ensures |bs| == |s| && forall k :: 0 <= k < |s| ==> bs[k] == s[k] as int
  {
    seq(|s|, k requires 0 <= k < |s| => s[k] as int)
  }

  /** `btoa` of a binary string: the padded standard base64 of its bytes. */
  function Btoa(binary: string): string
    requires IsBinary(binary)
  {
    Base64.Encode(BinaryBytes(binary))
  }

  /** The token `base64UrlEncodeString(str)` returns. */
  function EncodeString(str: string): string {
    Base64.UrlEncode(Utf8.Encode(str))
  }

  /** The consumer's inverse of `EncodeString`. */
  function DecodeString(token: string): Option<string> {
    match Base64.UrlDecode(token)
    case None => None
    case Some(bs) => Utf8.Decode(bs)
  }

  /**
    `base64UrlEncodeString`: UTF-8 encode, build the binary string one byte at
    a time, `btoa`, switch to the URL-safe alphabet, strip the padding.
  */
  method Base64UrlEncodeString(str: string) returns (token: string)
    ensures token == EncodeString(str)
  {
    var bytes := Utf8.Encode(str);
    var binary: string := "";
    for i := 0 to |bytes|
      invariant |binary| == i
      invariant forall k :: 0 <= k < i ==> binary[k] as int == bytes[k]
    {
      binary := binary + [bytes[i] as char];
    }
    assert BinaryBytes(binary) == bytes;
    var b64 := Btoa(binary);
    token := Base64.StripPadding(Base64.ToUrlSafe(b64));
  }

  /** Every token is made of `A-Z a-z 0-9 - _` only: never `+`, `/` or `=`. */
  lemma EncodeStringAlphabet(str: string)
    ensures forall k :: 0 <= k < |EncodeString(str)| ==> Base64.IsUrlChar(EncodeString(str)[k])
    ensures forall k :: 0 <= k < |EncodeString(str)| ==> EncodeString(str)[k] !in "+/="
  {
    Base64.UrlEncodeAlphabet(Utf8.Encode(str));
  }

  /** Re-padding, reversing the substitution, base64-decoding and UTF-8-decoding a token gives the string back. */
  lemma DecodeEncodeString(str: string)
    ensures DecodeString(EncodeString(str)) == Some(str)
  {
    Base64.UrlDecodeEncode(Utf8.Encode(str));
    Utf8.DecodeEncode(str);
  }

  /** The token for a proxy payload: `base64UrlEncodeString(JSON.stringify(payload))`. */
  function EncodePayload(p: Json.Payload): string {
    EncodeString(Json.Stringify(p))
  }

  function DecodePayload(token: string): Option<Json.Payload> {
    match DecodeString(token)
    case None => None
    case Some(text) => Json.Parse(text)
  }

  /** Decoding a payload token reproduces the URL and the headers exactly. */
  lemma DecodeEncodePayload(p: Json.Payload)
    ensures DecodePayload(EncodePayload(p)) == Some(p)
  {
    DecodeEncodeString(Json.Stringify(p));
    Json.ParseStringify(p);
  }

  const HlsPrefix: string := "/hls/"

  /** The proxy-relative path for a payload: `/hls/<token>` followed by `suffix` (`""` or `".m3u8"`). */
  function ProxyPath(p: Json.Payload, suffix: string): string {
    HlsPrefix + EncodePayload(p) + suffix
  }

  /** What the streaming proxy does with a path: drop prefix and suffix, decode the token. */
  function DecodeProxyPath(path: string, suffix: string): Option<Json.Payload> {
    if |path| >= |HlsPrefix| + |suffix| && HlsPrefix <= path && path[|path| - |suffix|..] == suffix then
      DecodePayload(path[|HlsPrefix|..|path| - |suffix|])
    else
      None
  }

  /** A proxy path decodes to the payload it was built from. */
  lemma DecodeProxyPathOf(p: Json.Payload, suffix: string)
    ensures DecodeProxyPath(ProxyPath(p, suffix), suffix) == Some(p)
  {
    var token := EncodePayload(p);
    var path := ProxyPath(p, suffix);
    assert path[|path| - |suffix|..] == suffix;
    assert path[|HlsPrefix|..|path| - |suffix|] == token;
    DecodeEncodePayload(p);
  }
}
