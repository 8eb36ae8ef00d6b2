/**
  The kimcartoon adapter (`extractKimcartoon`): post the episode id to the
  site's JSON endpoint, find the player iframe in the returned fragment, fetch
  the iframe page, read its sources and rewrite them to proxy paths.
*/
module Kimcartoon {
  import opened Wrappers
  import opened Patterns
  import opened Sources
  import Json
  import Codec

  const Origin: string := "https://kimcartoon.si"
  const FirefoxAgent: string := "Mozilla/5.0 (X11; Linux x86_64; rv:141.0) Gecko/20100101 Firefox/141.0"
  /** The referer the streaming host expects, used in the payloads and the page headers. */
  const StreamReferer: string := "https://em.vidstream.vip/"

  /** The two player servers the endpoint accepts. */
  datatype Server = VhServer | TServer {
    function Name(): string {
      match this
      case VhServer => "vhserver"
      case TServer => "tserver"
    }
  }

  function AjaxUrl(server: Server): string {
    Origin + "/ajax/anime/load_episodes_v2?s=" + server.Name()
  }

  /** The POST the adapter sends first: the episode id as its only form field. */
  function AjaxRequest(episodeId: string, server: Server): Request {
    PostForm(AjaxUrl(server), [("episode_id", episodeId)])
  }

  // ---------------------------------------------------------------- the iframe src

  /** The `src` of the first `<iframe>` tag, else the first double-quoted `src="..."`, else none. */
  function ExtractIframeSrc(fragment: string): (r: Option<string>)
    ensures r.Some? ==> r.value != []
    ensures Capture(IframeSrc, fragment).Some? ==> r == Capture(IframeSrc, fragment)
    ensures Capture(IframeSrc, fragment).None? ==> r == Capture(SrcAttribute, fragment)
  {
    match Capture(IframeSrc, fragment)
    case Some(src) => Some(src)
    case None => Capture(SrcAttribute, fragment)
  }

  // ---------------------------------------------------------------- the iframe page

  const FileKey: Pattern := KeyValue(["file"], "\"")
  const QuotedFileKey: Pattern := KeyValue(["\"file\""], "\"")
  const LabelKey: Pattern := KeyValue(["label"], "\"")
  const QuotedLabelKey: Pattern := KeyValue(["\"label\""], "\"")

  /** `a || b` over two captures. */
  function OrElse(a: Option<string>, b: Option<string>): Option<string> {
    if a.Some? then a else b
  }

  /** The `file` of an item (or of the whole page): the unquoted key first, then the quoted one. */
  function FileOf(text: string): (r: Option<string>)
    ensures r.Some? ==> r.value != []
    ensures Capture(FileKey, text).Some? ==> r == Capture(FileKey, text)
    ensures Capture(FileKey, text).None? ==> r == Capture(QuotedFileKey, text)
  {
    OrElse(Capture(FileKey, text), Capture(QuotedFileKey, text))
  }

  /** The `label` of an item, `auto` when it has none. */
  function LabelOf(item: string): (r: string)
    ensures r != []
    ensures OrElse(Capture(LabelKey, item), Capture(QuotedLabelKey, item)).None? ==> r == "auto"
    ensures Capture(LabelKey, item).Some? ==> r == Capture(LabelKey, item).value
    ensures Capture(LabelKey, item).None? && Capture(QuotedLabelKey, item).Some? ==> r == Capture(QuotedLabelKey, item).value
  {
    match OrElse(Capture(LabelKey, item), Capture(QuotedLabelKey, item))
    case Some(l) => l
    case None => "auto"
  }

  /** The text scanned for items: the inside of `sources: [...]` when there is one, otherwise the whole page. */
  function ItemBlock(html: string): (r: string)
    ensures Exec(Block("sources"), html).None? ==> r == html
    ensures Exec(Block("sources"), html).Some? && Exec(Block("sources"), html).value.group.Some? ==>
      r == Exec(Block("sources"), html).value.group.value
  {
    match Exec(Block("sources"), html)
    case Some(m) => if m.group.Some? then m.group.value else ""
    case None => html
  }

  /** The source an item gives: its `file` as the URL and its label, when it has a `file`. */
  function SourceOf(item: string): (r: Option<Stream>)
    ensures r.Some? <==> FileOf(item).Some?
    ensures r.Some? ==> r.value == Stream(FileOf(item).value, LabelOf(item))
  {
    match FileOf(item)
    case Some(file) => Some(Stream(file, LabelOf(item)))
    case None => None
  }

  /** What the item loop finds at each item, in item order. */
  function SourceOptions(items: seq<string>): (r: seq<Option<Stream>>)
    ensures |r| == |items|
  {
    seq(|items|, k requires 0 <= k < |items| => SourceOf(items[k]))
  }

  /** One source per item with a `file`, in item order, the raw file value as its URL. */
  function ItemSources(items: seq<string>): (r: seq<Stream>)
    ensures |r| <= |items|
    ensures forall s :: s in r ==> s.url != [] && s.quality != []
  {
    Somes(SourceOptions(items))
  }

  /** The sources of the iframe page: the items' sources, else one `auto` source from the page's first `file`. */
  function IframeSources(html: string): (r: seq<Stream>)
    ensures forall s :: s in r ==> s.url != [] && s.quality != []
  {
    var fromItems := ItemSources(MatchAll(BraceItem, ItemBlock(html)));
    if fromItems != [] then fromItems
    else
      match FileOf(html)
      case Some(single) => [Stream(single, "auto")]
      case None => []
  }

  /** The item loop: push a source for each item with a `file`, `continue` past the others. */
  method CollectItemSources(items: seq<string>) returns (sources: seq<Stream>)
    ensures sources == ItemSources(items)
  {
    sources := [];
    ghost var found := SourceOptions(items);
    for i := 0 to |items|
      invariant sources == Somes(found[..i])
    {
      SomesPrefix(found, i);
      var file := FileOf(items[i]);
      if file.None? {
        continue;
      }
      sources := sources + [Stream(file.value, LabelOf(items[i]))];
    }
    assert found[..|items|] == found;
  }

  /** The item loop over the block's items, then the single-file fallback over the whole page. */
  method ParseSourcesFromIframePage(html: string) returns (sources: seq<Stream>)
    ensures sources == IframeSources(html)
  {
    var block := ItemBlock(html);
    var items := MatchAll(BraceItem, block);
    sources := CollectItemSources(items);
    if |sources| == 0 {
      var single := FileOf(html);
      if single.Some? {
        sources := sources + [Stream(single.value, "auto")];
      }
    }
  }

  /** When every item has a `file`, there is one source per item, in order, with that file and label. */
  lemma ItemSourcesAllFiles(items: seq<string>)
    requires forall k :: 0 <= k < |items| ==> FileOf(items[k]).Some?
    ensures |ItemSources(items)| == |items|
    ensures forall k :: 0 <= k < |items| ==>
      ItemSources(items)[k] == Stream(FileOf(items[k]).value, LabelOf(items[k]))
  {
    SomesAllPresent(SourceOptions(items));
  }

  /** Items without a `file` contribute nothing: there are no sources from items exactly when no item has one. */
  lemma ItemSourcesEmpty(items: seq<string>)
    ensures ItemSources(items) == [] <==> forall k :: 0 <= k < |items| ==> FileOf(items[k]).None?
  {
    var opts := SourceOptions(items);
    assert forall k :: 0 <= k < |items| ==> opts[k] == SourceOf(items[k]);
    SomesEmpty(opts);
  }

  /**
    The fallback runs only when no item gives a source, and then gives exactly
    one `auto` source; the page yields nothing exactly when neither finds a file.
  */
  lemma IframeSourcesFallback(html: string)
    ensures var items := MatchAll(BraceItem, ItemBlock(html));
      (exists k :: 0 <= k < |items| && FileOf(items[k]).Some?) ==> IframeSources(html) == ItemSources(items)
    ensures var items := MatchAll(BraceItem, ItemBlock(html));
      (forall k :: 0 <= k < |items| ==> FileOf(items[k]).None?) ==>
        IframeSources(html) == (if FileOf(html).Some? then [Stream(FileOf(html).value, "auto")] else [])
  {
    ItemSourcesEmpty(MatchAll(BraceItem, ItemBlock(html)));
  }

  // ---------------------------------------------------------------- the adapter

  /** The headers put in every proxy payload and on the result, in insertion order. */
  const StreamHeaders: seq<(string, string)> := [("Referer", StreamReferer), ("User-Agent", FirefoxAgent)]

  function Assemble(sources: seq<Stream>): Source {
    Source(ProxyStreams(sources, StreamHeaders, ".m3u8"), [], [], Unknown, Unknown, StreamHeaders)
  }

  /** The iframe src of a reply the adapter accepts: a truthy status and a truthy `value`, read as its string form. */
  function IframeOf(rt: Runtime, replyText: string): Result<string, Failure> {
    match rt.parseJson(replyText)
    case None => Err(ApiStatusFalse)
    case Some(reply) =>
      if !reply.status then Err(ApiStatusFalse)
      else if reply.value.None? then Err(EmptyIframeHtml)
      else
        match ExtractIframeSrc(reply.value.value)
        case None => Err(IframeSrcNotFound)
        case Some(src) => Ok(src)
  }

  /** `extractKimcartoon(episodeId, server)` as a value: the outcome and the requests sent. */
  function Extract(rt: Runtime, episodeId: string, server: Server): (r: Run)
    ensures episodeId == "" <==> r == Run(Err(MissingEpisodeId), [])
    ensures episodeId != "" ==> 1 <= |r.requests| <= 2 && r.requests[0] == AjaxRequest(episodeId, server)
    ensures r.result.Err? && r.result.error.Transport? ==> r.result.error.request == r.requests[|r.requests| - 1]
    ensures |r.requests| == 2 <==>
      episodeId != "" && rt.fetch(AjaxRequest(episodeId, server)).Some?
      && IframeOf(rt, rt.fetch(AjaxRequest(episodeId, server)).value).Ok?
    ensures |r.requests| == 2 ==>
      r.requests[1] == Get(IframeOf(rt, rt.fetch(AjaxRequest(episodeId, server)).value).value)
    ensures r.result == Err(NoIframeSources) <==>
      |r.requests| == 2 && rt.fetch(r.requests[1]).Some? && IframeSources(rt.fetch(r.requests[1]).value) == []
  {
    if episodeId == "" then Run(Err(MissingEpisodeId), [])
    else
      var ajax := AjaxRequest(episodeId, server);
      match rt.fetch(ajax)
      case None => Run(Err(Transport(ajax)), [ajax])
      case Some(replyText) =>
        match IframeOf(rt, replyText)
        case Err(e) => Run(Err(e), [ajax])
        case Ok(src) =>
          var page := Get(src);
          match rt.fetch(page)
          case None => Run(Err(Transport(page)), [ajax, page])
          case Some(iframeHtml) =>
            var sources := IframeSources(iframeHtml);
            if sources == [] then Run(Err(NoIframeSources), [ajax, page])
            else Run(Ok(Assemble(sources)), [ajax, page])
  }

  /** `extractKimcartoon`, guard by guard as the adapter runs it. */
  method ExtractKimcartoon(rt: Runtime, episodeId: string, server: Server) returns (run: Run)
    ensures run == Extract(rt, episodeId, server)
  {
    if episodeId == "" {
      return Run(Err(MissingEpisodeId), []);
    }
    var ajax := AjaxRequest(episodeId, server);
    var ajaxResp := rt.fetch(ajax);
    if ajaxResp.None? {
      return Run(Err(Transport(ajax)), [ajax]);
    }
    var payload := rt.parseJson(ajaxResp.value);
    if payload.None? || !payload.value.status {
      return Run(Err(ApiStatusFalse), [ajax]);
    }
    var valueHtml := payload.value.value;
    if valueHtml.None? {
      return Run(Err(EmptyIframeHtml), [ajax]);
    }
    var iframeSrc := ExtractIframeSrc(valueHtml.value);
    if iframeSrc.None? {
      return Run(Err(IframeSrcNotFound), [ajax]);
    }
    var page := Get(iframeSrc.value);
    var iframeResp := rt.fetch(page);
    if iframeResp.None? {
      return Run(Err(Transport(page)), [ajax, page]);
    }
    var sources := ParseSourcesFromIframePage(iframeResp.value);
    if |sources| == 0 {
      return Run(Err(NoIframeSources), [ajax, page]);
    }
    run := Run(Ok(Assemble(sources)), [ajax, page]);
  }

  /**
    The reply's failures, in the adapter's order: unparsable JSON or a falsy
    status, then a falsy `value`, then a fragment without an iframe src;
    none of them sends the second request.
  */
  lemma ReplyFailures(rt: Runtime, episodeId: string, server: Server, replyText: string)
    requires episodeId != "" && rt.fetch(AjaxRequest(episodeId, server)) == Some(replyText)
    ensures var r := Extract(rt, episodeId, server);
      var reply := rt.parseJson(replyText);
      && (reply.None? || !reply.value.status ==> r == Run(Err(ApiStatusFalse), [AjaxRequest(episodeId, server)]))
      && (reply.Some? && reply.value.status && reply.value.value.None? ==>
            r == Run(Err(EmptyIframeHtml), [AjaxRequest(episodeId, server)]))
      && (reply.Some? && reply.value.status && reply.value.value.Some?
          && ExtractIframeSrc(reply.value.value.value).None? ==>
            r == Run(Err(IframeSrcNotFound), [AjaxRequest(episodeId, server)]))
  {
  }

  /**
    A successful run: the iframe page's sources, each with its quality kept and
    a proxy URL `/hls/<token>.m3u8` that decodes to the raw source URL and the
    stream headers; no tracks, no audio, unknown intro and outro.
  */
  lemma ExtractOk(rt: Runtime, episodeId: string, server: Server)
    requires Extract(rt, episodeId, server).result.Ok?
    ensures var r := Extract(rt, episodeId, server);
      |r.requests| == 2 && rt.fetch(r.requests[1]).Some?
    ensures var r := Extract(rt, episodeId, server);
      var raw := IframeSources(rt.fetch(r.requests[1]).value);
      var src := r.result.value;
      && |src.sources| == |raw| > 0
      && (forall k :: 0 <= k < |raw| ==>
            src.sources[k].quality == raw[k].quality
            && Codec.DecodeProxyPath(src.sources[k].url, ".m3u8") == Some(Json.Payload(raw[k].url, StreamHeaders)))
      && src.tracks == [] && src.audio == [] && src.intro == Unknown && src.outro == Unknown
      && src.headers == StreamHeaders
  {
    var r := Extract(rt, episodeId, server);
    var raw := IframeSources(rt.fetch(r.requests[1]).value);
    assert r.result.value == Assemble(raw);
    forall k | 0 <= k < |raw|
      ensures Codec.DecodeProxyPath(ProxyStreams(raw, StreamHeaders, ".m3u8")[k].url, ".m3u8")
           == Some(Json.Payload(raw[k].url, StreamHeaders))
    {
      ProxyStreamsDecode(raw, StreamHeaders, ".m3u8", k);
    }
  }
}
