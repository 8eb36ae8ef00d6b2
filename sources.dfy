/**
  The normalised `Source` both adapters return, the host facilities they call
  (HTTP fetch, URL parsing, JSON parsing) as parameters, the failures they
  raise, and the proxy rewriting of extracted streams.
*/
module Sources {
  import opened Wrappers
  import Json
  import Codec

  /** One playable variant: a URL and a human-readable quality label. */
  datatype Stream = Stream(url: string, quality: string)

  /** A subtitle or caption track; `name` is the `label` field of the source object (`label` is reserved in Dafny). */
  datatype Track = Track(url: string, lang: string, name: string)

  /** A `{start, end}` marker in seconds. */
  datatype Marker = Marker(start: int, end: int)

  const Unknown: Marker := Marker(0, 0)

  datatype Source = Source(
    sources: seq<Stream>,
    tracks: seq<Track>,
    audio: seq<Stream>,
    intro: Marker,
    outro: Marker,
    headers: seq<(string, string)>)

  /** A request an adapter sends; form bodies are kept as their fields, before form encoding. */
  datatype Request = Get(url: string) | PostForm(url: string, form: seq<(string, string)>)

  /** What the adapters' JSON endpoint reply gives after `JSON.parse`: the truth of `status` and `value` when it is truthy (as `String(value)`). */
  datatype AjaxReply = AjaxReply(status: bool, value: Option<string>)

  /** The host facilities the adapters call. */
  datatype Runtime = Runtime(
    /** The body of the response to a request; None when `fetch` or `.text()` rejects. */
    fetch: Request -> Option<string>,
    /** `new URL(path, base).toString()`; None when the constructor throws. */
    resolve: (string, string) -> Option<string>,
    /** `` `${u.protocol}//${u.hostname}/` `` for `u = new URL(url)`; None when the constructor throws. */
    origin: string -> Option<string>,
    /** `JSON.parse(text)` read as an `AjaxReply`; None when it throws. */
    parseJson: string -> Option<AjaxReply>)

  /** Why an adapter fails; `Message` gives the text of the errors the adapters throw themselves. */
  datatype Failure =
    | InvalidUrl(url: string)
    | Transport(request: Request)
    | SetupBlockNotFound
    | NoSources
    | MissingEpisodeId
    | ApiStatusFalse
    | EmptyIframeHtml
    | IframeSrcNotFound
    | NoIframeSources

  /** None for the errors the host raises (`new URL`, `fetch`), whose text the adapters pass on unchanged. */
  function Message(f: Failure): Option<string> {
    match f
    case InvalidUrl(_) => None
    case Transport(_) => None
    case SetupBlockNotFound => Some("Vidmoly: JWPlayer setup block not found")
    case NoSources => Some("Vidmoly: No sources found")
    case MissingEpisodeId => Some("KIMCARTOON: missing episode id")
    case ApiStatusFalse => Some("KIMCARTOON: API returned status=false")
    case EmptyIframeHtml => Some("KIMCARTOON: empty iframe html")
    case IframeSrcNotFound => Some("KIMCARTOON: iframe src not found")
    case NoIframeSources => Some("KIMCARTOON: no sources found in iframe page")
  }

  /** An adapter run: its outcome and the requests it sent, in order. */
  datatype Run = Run(result: Result<Source, Failure>, requests: seq<Request>)

  /**
    The `sources.map(...)` of both adapters: each stream's URL becomes the
    proxy path of `{u: url, h: headers}` followed by `suffix`; qualities and
    order are kept.
  */
  function ProxyStreams(streams: seq<Stream>, headers: seq<(string, string)>, suffix: string): (r: seq<Stream>)
    ensures |r| == |streams|
    ensures forall k :: 0 <= k < |r| ==> r[k].quality == streams[k].quality
    ensures forall k :: 0 <= k < |r| ==> Codec.HlsPrefix <= r[k].url
  {
    seq(|streams|, k requires 0 <= k < |streams| =>
      Stream(Codec.ProxyPath(Json.Payload(streams[k].url, headers), suffix), streams[k].quality))
  }

  /** Each proxied URL decodes, at the streaming proxy, to the original URL and the adapter's headers. */
  lemma ProxyStreamsDecode(streams: seq<Stream>, headers: seq<(string, string)>, suffix: string, k: nat)
    requires k < |streams|
    ensures Codec.DecodeProxyPath(ProxyStreams(streams, headers, suffix)[k].url, suffix)
         == Some(Json.Payload(streams[k].url, headers))
  {
    Codec.DecodeProxyPathOf(Json.Payload(streams[k].url, headers), suffix);
  }

  /** No raw upstream URL survives: every proxied URL is `/hls/` followed by base64url characters and the suffix. */
  lemma ProxyStreamsShape(streams: seq<Stream>, headers: seq<(string, string)>, suffix: string, k: nat)
    requires k < |streams|
    ensures var url := ProxyStreams(streams, headers, suffix)[k].url;
      var token := Codec.EncodePayload(Json.Payload(streams[k].url, headers));
      url == Codec.HlsPrefix + token + suffix
      && forall j :: 0 <= j < |token| ==> token[j] !in "+/="
  {
    Codec.EncodeStringAlphabet(Json.Stringify(Json.Payload(streams[k].url, headers)));
  }
}
