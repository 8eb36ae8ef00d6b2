# Stream-source extraction for vidmoly and kimcartoon, in Dafny

This project models the extraction and normalisation pipeline of the two
provider adapters of a small HTTP service. Each adapter turns the text of
provider pages into a normalised `Source`. A `Source` holds:

- a list of streams (URL and quality);
- subtitle tracks;
- audio tracks;
- intro and outro markers;
- the headers a player must send.

Every stream URL is rewritten into a path of the service's own HLS proxy:
`/hls/<token>` for vidmoly and `/hls/<token>.m3u8` for kimcartoon. The token
is the base64url encoding (section 5 of RFC 4648, unpadded as section 3.2
allows) of the UTF-8 bytes (RFC 3629) of the JSON text
`{"u":<url>,"h":{<headers>}}`, written without spaces as `JSON.stringify`
emits it.

## Modules

- `Wrappers`, `Bytes`: `Option`, `Result` and the `byte` type.
- `Utf8`, `Base64`, `Json`: the three layers under the payload token. Each has an encoder and a decoder, and a proof that decoding undoes encoding. `Json` serialises the payload the way `JSON.stringify` quotes strings.
- `Codec`: `base64UrlEncodeString` (shared by both adapters) and the proxy path built from a payload. It proves that the proxy gets the payload back from the path, and that tokens use only `A-Z a-z 0-9 - _`.
- `Patterns`: the adapters' regular expressions as first-order matchers. It also models `text.match(re)` as the leftmost match and `text.match(re_g)` as successive non-overlapping matches.
- `Urls`: the two `toAbsoluteUrl` helpers.
- `Sources`: the `Source` datatype, requests, failures, and the host facilities (`fetch`, `new URL`, `JSON.parse`) as a `Runtime` value of partial functions. It also holds the proxy rewriting shared by both adapters.
- `Vidmoly`, `Kimcartoon`: the two adapters.

Each adapter is stated twice:

- as a function (`Extract`) from the runtime and the inputs to a `Run`, which is the outcome together with the log of requests sent;
- as a method written step by step like the source (loops with `break` and `continue`, pushes onto lists), proved equal to the function.

## Model

| member | source | states |
|---|---|---|
| Utf8.EncodeChar | src/providers/vidmoly.ts:14 | one code point becomes 1 to 4 bytes; a single byte exactly when it is below 0x80; every byte after the lead is a continuation byte |
| Utf8.Encode | src/providers/vidmoly.ts:14 | the UTF-8 encoding of a string has between 1 and 4 bytes per character |
| Utf8.DecodeEncode | src/providers/vidmoly.ts:14 | decoding the UTF-8 bytes of any string gives the string back |
| Base64.Quad | src/providers/vidmoly.ts:17 | three bytes become four characters of the standard alphabet |
| Base64.Encode | src/providers/vidmoly.ts:17 | `btoa` output length is 4 * ceil(n / 3) |
| Base64.EncodeShape | src/providers/vidmoly.ts:17 | the output is standard-alphabet characters followed by exactly (3 - n mod 3) mod 3 `=` signs |
| Base64.DecodeEncode | src/providers/vidmoly.ts:17 | standard base64 decoding undoes `btoa` for every byte sequence |
| Base64.ToUrlSafe | src/providers/vidmoly.ts:18 | the `+` to `-` and `/` to `_` substitution keeps the length |
| Base64.StripPadding | src/providers/vidmoly.ts:18 | removing trailing `=` leaves a prefix that does not end in `=`, and only `=` signs were removed |
| Base64.Repad | src/providers/vidmoly.ts:18 | re-padding succeeds exactly when the length is not 1 mod 4, and extends the text to a multiple of 4 |
| Base64.UrlEncodeAlphabet | src/providers/vidmoly.ts:18 | every character of the URL-safe token is in `A-Z a-z 0-9 - _` |
| Base64.UrlDecodeEncode | src/providers/vidmoly.ts:17-18 | re-padding, undoing the substitution and decoding gives back the bytes |
| Json.EscapeChar | src/providers/vidmoly.ts:160 | an escaped character never starts with a raw quote or a control character, and is a backslash sequence exactly when it is longer than one character |
| Json.ParseStringify | src/providers/vidmoly.ts:160 | parsing the serialised payload gives back its URL and its headers in order |
| Codec.Base64UrlEncodeString | src/providers/vidmoly.ts:13-19 | the loop that builds the binary string one byte at a time yields the token `EncodeString` specifies |
| Codec.DecodeEncodeString | src/providers/vidmoly.ts:13-19 | re-pad, reverse the substitution, base64-decode and UTF-8-decode give back the input string |
| Codec.EncodeStringAlphabet | src/providers/kimcartoon.ts:49-55 | the token contains only `A-Z a-z 0-9 - _`, so never `+`, `/` or `=` |
| Codec.DecodeEncodePayload | src/providers/vidmoly.ts:160 | the token of `JSON.stringify({u, h})` decodes to the same `u` and `h` |
| Codec.DecodeProxyPathOf | src/providers/kimcartoon.ts:112-113 | `/hls/<token>` followed by the suffix decodes, at the proxy, to the payload it was built from |
| Patterns.FirstFrom | src/providers/vidmoly.ts:62 | `text.match(re)` finds a match that lies inside the text, at or after the search position |
| Patterns.FirstFromLeftmost | src/providers/vidmoly.ts:62 | the match `text.match(re)` returns is a match at its start position, no earlier position matches, and when it finds nothing no position matches |
| Patterns.AllFrom | src/providers/vidmoly.ts:91 | global matches lie inside the text, are in order and do not overlap |
| Patterns.AllFromMatches | src/providers/vidmoly.ts:91 | each global match is a match at its start, and no position before the first one matches |
| Patterns.AllFromGaps | src/providers/vidmoly.ts:91 | no position between the end of one global match and the start of the next, or after the last one up to the end of the text, starts a match, so no match is skipped |
| Patterns.KeyValueRematch | src/providers/vidmoly.ts:91-94 | each text of a global `file: "..."` match, matched again with the same expression, captures the value of that match |
| Patterns.ManifestRematch | src/providers/vidmoly.ts:121-124 | each text of a global quoted-`.m3u8` match, matched again as a plain quoted string, captures the quoted text of that match, which contains `.m3u8` |
| Patterns.KeyValueAt | src/providers/vidmoly.ts:93 | a `key: "value"` match captures a non-empty value without quote characters |
| Patterns.DigitsValueAt | src/providers/vidmoly.ts:82 | the `bitrate` capture is a non-empty run of digits |
| Urls.VidmolyAbsolute | src/providers/vidmoly.ts:3-11 | an empty input, an `http://` or `https://` input (any case), or a failed resolution returns the input; otherwise the resolved URL |
| Urls.KimcartoonAbsolute | src/providers/kimcartoon.ts:5-14 | the same, and `//host/p` (not already http) becomes `https://host/p` |
| Urls.VidmolyAbsoluteIdempotent | src/providers/vidmoly.ts:3-11 | when resolving an already resolved URL against the same base gives it back, applying the helper twice equals applying it once, for every input |
| Urls.KimcartoonAbsoluteIdempotent | src/providers/kimcartoon.ts:5-14 | the same for the kimcartoon helper, for every input including protocol-relative ones, when in addition a resolved URL never starts with `//` |
| Sources.ProxyStreams | src/providers/vidmoly.ts:152-163 | the proxy map keeps the count, the order and every quality, and every URL starts with `/hls/` |
| Sources.ProxyStreamsDecode | src/providers/vidmoly.ts:152-163 | each proxied URL decodes to the original stream URL with the adapter's headers |
| Sources.ProxyStreamsShape | src/providers/kimcartoon.ts:104-115 | each proxied URL is `/hls/` + the payload token + the suffix, and the token holds no `+`, `/` or `=` |
| Vidmoly.LoadPage | src/providers/vidmoly.ts:38-49 | the page is fetched once; a second fetch, to `baseUrl?t=<token>`, happens exactly when the page is the interstitial (both markers) and yields a token, and never a third |
| Vidmoly.FetchPage | src/providers/vidmoly.ts:38-49 | the fetch, the interstitial test and the single retry send exactly the requests `LoadPage` specifies and return its page |
| Vidmoly.LocateSetup | src/providers/vidmoly.ts:51-76 | the pattern loop with `break` and the `.m3u8` fallback compute `SetupText` |
| Vidmoly.SetupFirstAcceptedWins | src/providers/vidmoly.ts:61-67 | patterns are tried in list order; the first with a non-empty capture gives `{` + capture + `}` |
| Vidmoly.SetupFallback | src/providers/vidmoly.ts:69-76 | when no pattern is accepted, the first quoted `.m3u8` string is wrapped into the synthetic configuration; when there is none, the locator fails |
| Vidmoly.SetupNotFound | src/providers/vidmoly.ts:69-76 | "setup block not found" happens exactly when no pattern is accepted and the page has no quoted `.m3u8` string |
| Vidmoly.TopQuality | src/providers/vidmoly.ts:81-82 | the quality is the first `label:` value anywhere in the setup text (a source entry's or a track's), else the first `bitrate:` digits anywhere in it followed by `p`, else `auto` |
| Vidmoly.TopQualityFirstLabelAnywhere | src/providers/vidmoly.ts:81 | in `[{label:"en"}],label:"hd"` the quality is `en`: a track's `label` that comes before the player's own sets the quality |
| Vidmoly.StreamsOf | src/providers/vidmoly.ts:91-99 | the file loop gives at most one source per match, each with the given quality |
| Vidmoly.ArrayStageOnePerMatch | src/providers/vidmoly.ts:90-99 | the list form gives exactly one source per `file:` match of the list, in order: that value made absolute, with the setup text's quality (`TopQuality`) |
| Vidmoly.ManifestStageOnePerMatch | src/providers/vidmoly.ts:120-129 | the `.m3u8` scan gives exactly one source per quoted `.m3u8` string, in order: that text made absolute, with the setup text's quality (`TopQuality`) |
| Vidmoly.SourceChain | src/providers/vidmoly.ts:84-130 | array, object, single `file` and `.m3u8` scan are each used only when all earlier forms gave nothing; the chain is empty exactly when all four are; every source has the setup text's quality (`TopQuality`) |
| Vidmoly.PushListFiles | src/providers/vidmoly.ts:90-99 | the loop over the `file:` matches pushes, in match order, one stream per match that re-matches, which is `StreamsOf` |
| Vidmoly.PushManifests | src/providers/vidmoly.ts:120-129 | the loop over the quoted `.m3u8` strings pushes, in match order, one stream per match that re-matches, which is `StreamsOf` |
| Vidmoly.CollectSources | src/providers/vidmoly.ts:84-130 | the four guarded stages pushing onto one list compute `SourceChain` |
| Vidmoly.TrackOf | src/providers/vidmoly.ts:141-148 | an item without `file` is skipped; the label is `label`, else `kind`, else `track`; the language is `lang`/`language`, else `kind`, else `unknown`; the URL is the file made absolute |
| Vidmoly.TracksOfAllFiles | src/providers/vidmoly.ts:136-150 | when every item has a `file` there is one track per item, in item order |
| Vidmoly.TracksOfEmpty | src/providers/vidmoly.ts:136-150 | the items give no track exactly when no item has a `file` |
| Vidmoly.CollectTracks | src/providers/vidmoly.ts:136-150 | the track loop with `continue` computes `Tracks` |
| Vidmoly.Extract | src/providers/vidmoly.ts:21-179 | an unparsable base URL fails before any request; at most two requests; a second only after the interstitial; "setup block not found" and "No sources found" each fail exactly when their condition holds |
| Vidmoly.ExtractVidmoly | src/providers/vidmoly.ts:21-179 | the step-by-step adapter returns what `Extract` specifies |
| Vidmoly.PosterHeader | src/providers/vidmoly.ts:171-175 | `X-Poster` is among the page headers exactly when the poster is a non-empty string, and then comes last |
| Vidmoly.AssembleShape | src/providers/vidmoly.ts:152-176 | the response has one source per extracted stream, in order and with its quality, whose proxy URL decodes to the stream's URL and the payload headers; the given tracks; empty audio; intro and outro `{0, 0}`; the payload headers first and `X-Poster` exactly when a non-empty poster was found |
| Vidmoly.ExtractOk | src/providers/vidmoly.ts:132-178 | a successful run loaded the page and found a setup block, and its response is the assembly of a non-empty source chain, all with the setup text's quality (`TopQuality`), and of the setup text's tracks |
| Kimcartoon.ExtractIframeSrc | src/providers/kimcartoon.ts:16-22 | the `<iframe ... src=...>` value is preferred, else the first double-quoted `src="..."`, else none; a result is never empty |
| Kimcartoon.FileOf | src/providers/kimcartoon.ts:33-34 | the unquoted `file:` capture when there is one, otherwise the quoted `"file":` capture; a found value is non-empty |
| Kimcartoon.LabelOf | src/providers/kimcartoon.ts:36-37 | the label is the unquoted `label` value, else the quoted `"label"` value, else `auto`; never empty |
| Kimcartoon.ItemBlock | src/providers/kimcartoon.ts:27-28 | items are read from the inside of the first `sources: [...]` when there is one, otherwise from the whole page |
| Kimcartoon.SourceOf | src/providers/kimcartoon.ts:33-38 | an item gives a source exactly when it has a `file`, and then the source is that file with the item's label |
| Kimcartoon.ItemSources | src/providers/kimcartoon.ts:32-39 | at most one source per item, each with a non-empty URL and quality |
| Kimcartoon.ItemSourcesAllFiles | src/providers/kimcartoon.ts:32-39 | when every item has a `file`, one source per item in item order, with that file and label |
| Kimcartoon.ItemSourcesEmpty | src/providers/kimcartoon.ts:32-39 | the items give no source exactly when no item has a `file` |
| Kimcartoon.IframeSources | src/providers/kimcartoon.ts:24-47 | every parsed source has a non-empty URL and quality |
| Kimcartoon.IframeSourcesFallback | src/providers/kimcartoon.ts:41-45 | the single-file fallback runs only when no item has a `file`, and then gives exactly one `auto` source or none |
| Kimcartoon.CollectItemSources | src/providers/kimcartoon.ts:32-39 | the item loop with `continue` computes `ItemSources` |
| Kimcartoon.ParseSourcesFromIframePage | src/providers/kimcartoon.ts:24-47 | the item block, the item loop and the single-file fallback push compute `IframeSources` |
| Kimcartoon.Extract | src/providers/kimcartoon.ts:57-130 | an empty episode id fails with no request; otherwise the first request is the form POST; the iframe is fetched exactly when the reply passes every guard; "no sources found in iframe page" exactly when the fetched page yields none |
| Kimcartoon.ExtractKimcartoon | src/providers/kimcartoon.ts:57-130 | the guard-by-guard adapter returns what `Extract` specifies |
| Kimcartoon.ReplyFailures | src/providers/kimcartoon.ts:79-86 | unparsable JSON or a falsy status, then a falsy `value`, then a missing iframe src fail in that order, after the POST only |
| Kimcartoon.ExtractOk | src/providers/kimcartoon.ts:101-127 | on success: one proxied source per parsed source, with its quality and a `/hls/<token>.m3u8` URL that decodes to the raw URL and the stream headers; no tracks or audio; intro and outro `{0, 0}` |

## Left out

- `fetch`, `res.text()` and the 1500 ms pause before the retry are not modelled directly. A request is a `Get` or a `PostForm` value, and a response body is `Runtime.fetch` of it. A rejected fetch or body read is one `Transport` failure. Request header tables are not modelled.
- `new URL(...)` (WHATWG URL parsing) is a parameter returning None where the constructor throws. This covers resolution in `toAbsoluteUrl` and the `protocol//hostname/` origin of the base URL.
- `JSON.parse` of the kimcartoon reply is a parameter. It gives the truth of `status` and, when `value` is truthy, its string form.
- `URLSearchParams` form encoding is left out; the POST body is kept as its single field `episode_id`.
- The six setup-block regular expressions of vidmoly are abstract. They are functions from the page to the first match's group, and only their order and the non-empty test are modelled.
- The other regular expressions are written out for their specific shapes in `Patterns`, not as a general regex engine. At each position the matcher returns the match a backtracking regex engine finds first. The `i` flag folds ASCII letters only; those are the only letters these patterns contain.
- `TextEncoder` replaces lone surrogates with U+FFFD. That is not modelled, because a Dafny `char` is a Unicode scalar value, so lone surrogates cannot occur.
- Urls.VidmolyAbsoluteIdempotent and Urls.KimcartoonAbsoluteIdempotent assume that resolving an already resolved URL against the same base gives it back, and (for kimcartoon) that a resolved URL has a scheme. The URL parser is a parameter, so these properties of WHATWG serialisation are premises, not proved.
- Patterns.KeyValueRematch covers single-key `key: "value"` expressions, the only ones the adapters match globally and then match again.
- Kimcartoon's `typeof episodeId !== 'string'` guard is left out; the parameter is always a string here.
- `String(...)` of a non-string `value` is not modelled; the fragment is taken as the string form.
- Kimcartoon's `toAbsoluteUrl` is modelled (`Urls.KimcartoonAbsolute`) but no adapter calls it, as in the source. Kimcartoon's source URLs stay raw until proxying.
- The HTTP routing and CORS handling of the service entry point are not part of this model, and neither is the HLS proxy handler; `Codec.DecodeProxyPath` only states what that proxy must do to recover a payload.
- Error messages are the exact texts of `Sources.Message`. Errors raised by the host (`new URL`, `fetch`) are kept as their cause, not as a text.
