/**
  The vidmoly adapter (`extractVidmoly`): fetch the embed page, pass the
  anti-bot interstitial once, locate the player setup block, pull sources,
  tracks and poster from it, and rewrite the sources to proxy paths.
*/
module Vidmoly {
  import opened Wrappers
  import opened Patterns
  import opened Sources
  import Urls
  import Json
  import Codec

  const UserAgent: string :=
    "Mozilla/5.0 (Linux; Android 10; K) AppleWebKit/537.36 (KHTML, like Gecko) Chrome/132.0.0.0 Mobile Safari/537.36"

  const FileValue: Pattern := KeyValue(["file"], BothQuotes)
  const LabelValue: Pattern := KeyValue(["label"], BothQuotes)
  const ImageValue: Pattern := KeyValue(["image"], BothQuotes)
  const KindValue: Pattern := KeyValue(["kind"], BothQuotes)
  /** `lang` or `language`; at one position the longer key is tried first. */
  const LangValue: Pattern := KeyValue(["language", "lang"], BothQuotes)
  const BitrateValue: Pattern := DigitsValue("bitrate")
  const TracksBlock: Pattern := Block("tracks")

  // ---------------------------------------------------------------- the embed page

  /** Both markers of the "Please wait" interstitial are present. */
  predicate IsInterstitial(html: string) {
    Contains(html, "Please wait") && Contains(html, "window.location.href = url")
  }

  /** The token of the one retry: only on an interstitial, and only when the inline script yields one. */
  function RetryToken(html: string): Option<string> {
    if IsInterstitial(html) then Capture(RedirectToken, html) else None
  }

  /**
    Fetches the embed page and, when it is the interstitial and a token is
    found, fetches `baseUrl?t=<token>` once; returns the page text in the end
    and the requests sent.
  */
  function LoadPage(rt: Runtime, baseUrl: string): (r: (Result<string, Failure>, seq<Request>))
    ensures 1 <= |r.1| <= 2 && r.1[0] == Get(baseUrl)
    ensures |r.1| == 2 <==> rt.fetch(Get(baseUrl)).Some? && RetryToken(rt.fetch(Get(baseUrl)).value).Some?
    ensures |r.1| == 2 ==>
      r.1[1] == Get(baseUrl + "?t=" + RetryToken(rt.fetch(Get(baseUrl)).value).value)
    ensures r.0.Ok? && |r.1| == 1 ==> rt.fetch(Get(baseUrl)) == Some(r.0.value)
    ensures r.0.Ok? && |r.1| == 2 ==> rt.fetch(r.1[1]) == Some(r.0.value)
  {
    var first := Get(baseUrl);
    match rt.fetch(first)
    case None => (Err(Transport(first)), [first])
    case Some(html) =>
      match RetryToken(html)
      case None => (Ok(html), [first])
      case Some(token) =>
        var retry := Get(baseUrl + "?t=" + token);
        match rt.fetch(retry)
        case None => (Err(Transport(retry)), [first, retry])
        case Some(html2) => (Ok(html2), [first, retry])
  }

  /** The fetch, the interstitial test and the one retry, reassigning the response and the page text. */
  method FetchPage(rt: Runtime, baseUrl: string) returns (page: Result<string, Failure>, requests: seq<Request>)
    ensures (page, requests) == LoadPage(rt, baseUrl)
  {
    var request := Get(baseUrl);
    requests := [request];
    var res := rt.fetch(request);
    if res.None? {
      return Err(Transport(request)), requests;
    }
    var html := res.value;
    if Contains(html, "Please wait") && Contains(html, "window.location.href = url") {
      var tokenMatch := Capture(RedirectToken, html);
      if tokenMatch.Some? {
        request := Get(baseUrl + "?t=" + tokenMatch.value);
        requests := requests + [request];
        assert requests == [Get(baseUrl), request];
        res := rt.fetch(request);
        if res.None? {
          return Err(Transport(request)), requests;
        }
        html := res.value;
      }
    }
    page := Ok(html);
  }

  // ---------------------------------------------------------------- the setup block

  /** One of the setup-block regular expressions: group 1 of its first match in the page, if any. */
  type SetupPattern = string -> Option<string>

  /** A capture the adapter accepts: present and non-empty. */
  predicate Accepted(c: Option<string>) {
    c.Some? && c.value != []
  }

  /** The first pattern from index `k` on with an accepted capture, wrapped in braces. */
  function SetupFrom(html: string, patterns: seq<SetupPattern>, k: nat): Option<string>
    requires k <= |patterns|
    decreases |patterns| - k
  {
    if k == |patterns| then None
    else
      var c := patterns[k](html);
      if Accepted(c) then Some("{" + c.value + "}") else SetupFrom(html, patterns, k + 1)
  }

  /** The configuration synthesised around a manifest URL when no setup block is found. */
  function SyntheticSetup(url: string): string {
    "{sources: [{file:\"" + url + "\"}], label: \"auto\"}"
  }

  /** The setup text the adapter works on, or None when it throws "setup block not found". */
  function SetupText(html: string, patterns: seq<SetupPattern>): Option<string> {
    match SetupFrom(html, patterns, 0)
    case Some(t) => Some(t)
    case None =>
      match Capture(QuotedManifest, html)
      case Some(u) => Some(SyntheticSetup(u))
      case None => None
  }

  /** The pattern loop with `break`, then the manifest fallback. */
  method LocateSetup(html: string, patterns: seq<SetupPattern>) returns (setupText: Option<string>)
    ensures setupText == SetupText(html, patterns)
  {
    var text := "";
    var k := 0;
    while k < |patterns|
      invariant 0 <= k <= |patterns| && text == ""
      invariant SetupFrom(html, patterns, 0) == SetupFrom(html, patterns, k)
    {
      var c := patterns[k](html);
      if c.Some? && c.value != "" {
        text := "{" + c.value + "}";
        break;
      }
      k := k + 1;
    }
    if text == "" {
      var m := Capture(QuotedManifest, html);
      if m.Some? {
        text := SyntheticSetup(m.value);
      } else {
        return None;
      }
    }
    setupText := Some(text);
  }

  lemma {:induction false} SetupFromSkips(html: string, patterns: seq<SetupPattern>, j: nat, k: nat)
    requires j <= k < |patterns|
    requires Accepted(patterns[k](html))
    requires forall i :: j <= i < k ==> !Accepted(patterns[i](html))
    ensures SetupFrom(html, patterns, j) == Some("{" + patterns[k](html).value + "}")
    decreases k - j
  {
    if j < k {
      SetupFromSkips(html, patterns, j + 1, k);
    }
  }

  /** Patterns are tried in list order: the first with a non-empty capture decides the setup text. */
  lemma SetupFirstAcceptedWins(html: string, patterns: seq<SetupPattern>, k: nat)
    requires k < |patterns|
    requires Accepted(patterns[k](html))
    requires forall i :: 0 <= i < k ==> !Accepted(patterns[i](html))
    ensures SetupText(html, patterns) == Some("{" + patterns[k](html).value + "}")
  {
    SetupFromSkips(html, patterns, 0, k);
  }

  lemma {:induction false} SetupFromNone(html: string, patterns: seq<SetupPattern>, j: nat)
    requires j <= |patterns|
    ensures SetupFrom(html, patterns, j).None? <==> forall i :: j <= i < |patterns| ==> !Accepted(patterns[i](html))
    decreases |patterns| - j
  {
    if j < |patterns| {
      SetupFromNone(html, patterns, j + 1);
    }
  }

  /**
    Without an accepted capture the first quoted `.m3u8` string is wrapped into
    a synthetic configuration; without one either, the adapter fails.
  */
  lemma SetupFallback(html: string, patterns: seq<SetupPattern>)
    requires forall i :: 0 <= i < |patterns| ==> !Accepted(patterns[i](html))
    ensures Capture(QuotedManifest, html).Some? ==>
      SetupText(html, patterns) == Some(SyntheticSetup(Capture(QuotedManifest, html).value))
    ensures Capture(QuotedManifest, html).None? ==> SetupText(html, patterns).None?
  {
    SetupFromNone(html, patterns, 0);
  }

  /** The adapter fails to find a setup text exactly when no pattern is accepted and no quoted `.m3u8` string exists. */
  lemma SetupNotFound(html: string, patterns: seq<SetupPattern>)
    ensures SetupText(html, patterns).None? <==>
      (forall i :: 0 <= i < |patterns| ==> !Accepted(patterns[i](html))) && Capture(QuotedManifest, html).None?
  {
    SetupFromNone(html, patterns, 0);
  }

  // ---------------------------------------------------------------- sources

  /**
    The quality every source gets: the first `label:` value anywhere in the setup
    text (which may be a source entry's or a track's), else the first `bitrate:`
    digits anywhere in it with `p`, else `auto`.
  */
  function TopQuality(setupText: string): (q: string)
    ensures q != []
    ensures Capture(LabelValue, setupText).Some? ==> q == Capture(LabelValue, setupText).value
    ensures Capture(LabelValue, setupText).None? && Capture(BitrateValue, setupText).Some? ==>
      q == Capture(BitrateValue, setupText).value + "p"
    ensures Capture(LabelValue, setupText).None? && Capture(BitrateValue, setupText).None? ==> q == "auto"
  {
    match Capture(LabelValue, setupText)
    case Some(l) => l
    case None =>
      match Capture(BitrateValue, setupText)
      case Some(bitrate) => bitrate + "p"
      case None => "auto"
  }

  /** The pieces of a `label: "en"` match at position 2 of the sample setup text below. */
  lemma SampleLabelParts(t: string)
    requires t == "[{label:\"en\"}],label:\"hd\""
    ensures |t| == 25 && t[0] == '[' && t[1] == '{'
    ensures StartsAt(t, 2, "label") && AfterColon(t, 7) == Some(8)
    ensures QuotedAt(t, 8, BothQuotes) == Some(Hit(12, Some("en")))
  {
    assert t[2] == 'l';
    assert t[3] == 'a';
    assert t[4] == 'b';
    assert t[5] == 'e';
    assert t[6] == 'l';
    assert t[2..7] == "label";
    assert t[7] == ':';
    assert t[8] == '"';
    assert t[9] == 'e';
    assert t[10] == 'n';
    assert t[11] == '"';
    assert t[9..11] == "en";
    SkipNoSpace(t, 7);
    SkipNoSpace(t, 8);
    AfterColonAt(t, 7, 7);
    FindAnyStop(t, 11, BothQuotes);
    FindAnyStep(t, 10, BothQuotes);
    FindAnyStep(t, 9, BothQuotes);
  }

  /**
    The `label` behind the quality is the first one anywhere in the setup text:
    a track item's `label` that comes before the player's own wins.
  */
  lemma TopQualityFirstLabelAnywhere()
    ensures TopQuality("[{label:\"en\"}],label:\"hd\"") == "en"
  {
    var t := "[{label:\"en\"}],label:\"hd\"";
    SampleLabelParts(t);
    NotStartsAt(t, 0, "label");
    NotStartsAt(t, 1, "label");
    KeyValueMatchAt(t, 0, "label", BothQuotes);
    KeyValueMatchAt(t, 1, "label", BothQuotes);
    KeyValueMatchAt(t, 2, "label", BothQuotes);
    KeyAtOfParts(t, 2, "label", BothQuotes, 8);
    assert FirstFrom(LabelValue, t, 0) == FirstFrom(LabelValue, t, 2);
  }




  function Absolute(rt: Runtime, domain: string, path: string): string {
    Urls.VidmolyAbsolute(rt.resolve, path, domain)
  }

  /** The stream a match text gives: re-matched with `rematch` to read its URL, made absolute, with the given quality. */
  function StreamOf(rt: Runtime, domain: string, quality: string, rematch: Pattern, text: string): Option<Stream> {
    match Capture(rematch, text)
    case Some(u) => Some(Stream(Absolute(rt, domain, u), quality))
    case None => None
  }

  /** What a match loop finds at each match text, in order. */
  function StreamOptions(rt: Runtime, domain: string, quality: string, rematch: Pattern, texts: seq<string>): seq<Option<Stream>> {
    seq(|texts|, k requires 0 <= k < |texts| => StreamOf(rt, domain, quality, rematch, texts[k]))
  }

  /** The streams of the match texts that `rematch` accepts, in order, all with the given quality. */
  function StreamsOf(rt: Runtime, domain: string, quality: string, rematch: Pattern, texts: seq<string>): (r: seq<Stream>)
    ensures |r| <= |texts|
    ensures forall x :: x in r ==> x.quality == quality
  {
    Somes(StreamOptions(rt, domain, quality, rematch, texts))
  }

  /** `sourcesArrayMatch[1] || ''`: the bracketed list; empty for the parenthesised form, which has no group. */
  function ListContent(setupText: string): string {
    match Exec(SourcesList, setupText)
    case Some(m) => if m.group.Some? then m.group.value else ""
    case None => ""
  }

  /** First form: every `file:` value inside the `sources: [...]` list. */
  function ArrayStage(rt: Runtime, domain: string, setupText: string): seq<Stream> {
    var content := ListContent(setupText);
    if content == "" then []
    else StreamsOf(rt, domain, TopQuality(setupText), FileValue, MatchAll(FileValue, content))
  }

  /** Second form: the `file:` value of a `sources: {...}` object. */
  function ObjectStage(rt: Runtime, domain: string, setupText: string): seq<Stream> {
    match Capture(SourcesObject, setupText)
    case Some(u) => [Stream(Absolute(rt, domain, u), TopQuality(setupText))]
    case None => []
  }

  /** Third form: the first `file:` value anywhere in the setup text. */
  function SingleStage(rt: Runtime, domain: string, setupText: string): seq<Stream> {
    match Capture(FileValue, setupText)
    case Some(u) => [Stream(Absolute(rt, domain, u), TopQuality(setupText))]
    case None => []
  }

  /** Fourth form: every quoted string of the setup text that contains `.m3u8`. */
  function ManifestStage(rt: Runtime, domain: string, setupText: string): seq<Stream> {
    StreamsOf(rt, domain, TopQuality(setupText), Quoted, MatchAll(QuotedManifest, setupText))
  }

  /** The four forms, each consulted only when the ones before it gave nothing; every source gets the setup text's quality (`TopQuality`). */
  function SourceChain(rt: Runtime, domain: string, setupText: string): (r: seq<Stream>)
    ensures forall k :: 0 <= k < |r| ==> r[k].quality == TopQuality(setupText)
    ensures r == [] <==>
      ArrayStage(rt, domain, setupText) == [] && ObjectStage(rt, domain, setupText) == []
      && SingleStage(rt, domain, setupText) == [] && ManifestStage(rt, domain, setupText) == []
    ensures ArrayStage(rt, domain, setupText) != [] ==> r == ArrayStage(rt, domain, setupText)
    ensures ArrayStage(rt, domain, setupText) == [] && ObjectStage(rt, domain, setupText) != [] ==>
      r == ObjectStage(rt, domain, setupText)
    ensures (ArrayStage(rt, domain, setupText) == [] && ObjectStage(rt, domain, setupText) == []
             && SingleStage(rt, domain, setupText) != []) ==> r == SingleStage(rt, domain, setupText)
    ensures (ArrayStage(rt, domain, setupText) == [] && ObjectStage(rt, domain, setupText) == []
             && SingleStage(rt, domain, setupText) == []) ==> r == ManifestStage(rt, domain, setupText)
  {
    var listed := ArrayStage(rt, domain, setupText);
    if listed != [] then listed
    else
      var objected := ObjectStage(rt, domain, setupText);
      if objected != [] then objected
      else
        var single := SingleStage(rt, domain, setupText);
        if single != [] then single
        else ManifestStage(rt, domain, setupText)
  }

  /** When the re-match accepts every match text, there is exactly one stream per text, in order. */
  lemma StreamsOfAllAccepted(rt: Runtime, domain: string, quality: string, rematch: Pattern, texts: seq<string>)
    requires forall k :: 0 <= k < |texts| ==> Capture(rematch, texts[k]).Some?
    ensures |StreamsOf(rt, domain, quality, rematch, texts)| == |texts|
    ensures forall k :: 0 <= k < |texts| ==>
      StreamsOf(rt, domain, quality, rematch, texts)[k] == Stream(Absolute(rt, domain, Capture(rematch, texts[k]).value), quality)
  {
    var opts := StreamOptions(rt, domain, quality, rematch, texts);
    assert forall k :: 0 <= k < |texts| ==> opts[k] == StreamOf(rt, domain, quality, rematch, texts[k]);
    SomesAllPresent(opts);
  }

  /**
    The list form gives exactly one stream per `file:` match of the list, in
    order: that match's value made absolute, with the setup text's quality (`TopQuality`).
  */
  lemma ArrayStageOnePerMatch(rt: Runtime, domain: string, setupText: string)
    requires ListContent(setupText) != ""
    ensures var ms := AllFrom(FileValue, ListContent(setupText), 0);
      var listed := ArrayStage(rt, domain, setupText);
      && |listed| == |ms|
      && forall k :: 0 <= k < |ms| ==>
           ms[k].group.Some? && listed[k] == Stream(Absolute(rt, domain, ms[k].group.value), TopQuality(setupText))
  {
    var content := ListContent(setupText);
    KeyValueRematch("file", BothQuotes, content);
    StreamsOfAllAccepted(rt, domain, TopQuality(setupText), FileValue, MatchAll(FileValue, content));
  }

  /**
    The `.m3u8` scan gives exactly one stream per quoted `.m3u8` string of the
    setup text, in order: its text made absolute, with the setup text's quality (`TopQuality`).
  */
  lemma ManifestStageOnePerMatch(rt: Runtime, domain: string, setupText: string)
    ensures var ms := AllFrom(QuotedManifest, setupText, 0);
      var found := ManifestStage(rt, domain, setupText);
      && |found| == |ms|
      && forall k :: 0 <= k < |ms| ==>
           ms[k].group.Some? && Contains(ms[k].group.value, ".m3u8")
           && found[k] == Stream(Absolute(rt, domain, ms[k].group.value), TopQuality(setupText))
  {
    ManifestRematch(setupText);
    StreamsOfAllAccepted(rt, domain, TopQuality(setupText), Quoted, MatchAll(QuotedManifest, setupText));
  }

  /** The loop over the `file:` matches of the list content (the first form): each match re-matched for its URL. */
  method PushListFiles(rt: Runtime, domain: string, quality: string, fileMatches: seq<string>) returns (sources: seq<Stream>)
    ensures sources == StreamsOf(rt, domain, quality, FileValue, fileMatches)
  {
    sources := [];
    ghost var found := StreamOptions(rt, domain, quality, FileValue, fileMatches);
    for i := 0 to |fileMatches|
      invariant sources == Somes(found[..i])
    {
      SomesPrefix(found, i);
      var stream := StreamOf(rt, domain, quality, FileValue, fileMatches[i]);
      if stream.Some? {
        sources := sources + [stream.value];
      }
    }
    assert found[..|fileMatches|] == found;
  }

  /** The loop over the quoted `.m3u8` strings of the setup text (the fourth form): each stripped of its quotes. */
  method PushManifests(rt: Runtime, domain: string, quality: string, m3u8Matches: seq<string>) returns (sources: seq<Stream>)
    ensures sources == StreamsOf(rt, domain, quality, Quoted, m3u8Matches)
  {
    sources := [];
    ghost var found := StreamOptions(rt, domain, quality, Quoted, m3u8Matches);
    for i := 0 to |m3u8Matches|
      invariant sources == Somes(found[..i])
    {
      SomesPrefix(found, i);
      var stream := StreamOf(rt, domain, quality, Quoted, m3u8Matches[i]);
      if stream.Some? {
        sources := sources + [stream.value];
      }
    }
    assert found[..|m3u8Matches|] == found;
  }


  /** The four guarded stages of the adapter, pushing into one `sources` list. */
  method CollectSources(rt: Runtime, domain: string, setupText: string) returns (sources: seq<Stream>)
    ensures sources == SourceChain(rt, domain, setupText)
  {
    var quality := TopQuality(setupText);
    sources := [];
    var sourcesContent := ListContent(setupText);
    if sourcesContent != "" {
      sources := PushListFiles(rt, domain, quality, MatchAll(FileValue, sourcesContent));
    }
    if |sources| == 0 {
      var objectFile := Capture(SourcesObject, setupText);
      if objectFile.Some? {
        sources := sources + [Stream(Absolute(rt, domain, objectFile.value), quality)];
      }
    }
    if |sources| == 0 {
      var singleFile := Capture(FileValue, setupText);
      if singleFile.Some? {
        sources := sources + [Stream(Absolute(rt, domain, singleFile.value), quality)];
      }
    }
    if |sources| == 0 {
      sources := PushManifests(rt, domain, quality, MatchAll(QuotedManifest, setupText));
    }
  }

  // ---------------------------------------------------------------- tracks

  /** A track item: skipped without `file`; `label` else `kind` else "track"; `lang`/`language` else `kind` else "unknown". */
  function TrackOf(rt: Runtime, domain: string, item: string): (r: Option<Track>)
    ensures r.Some? <==> Capture(FileValue, item).Some?
    ensures r.Some? ==> r.value.url == Absolute(rt, domain, Capture(FileValue, item).value)
    ensures r.Some? ==> r.value.name != [] && r.value.lang != []
    ensures r.Some? && Capture(LabelValue, item).Some? ==> r.value.name == Capture(LabelValue, item).value
    ensures r.Some? && Capture(LabelValue, item).None? ==>
      r.value.name == (if Capture(KindValue, item).Some? then Capture(KindValue, item).value else "track")
    ensures r.Some? && Capture(LangValue, item).Some? ==> r.value.lang == Capture(LangValue, item).value
    ensures r.Some? && Capture(LangValue, item).None? ==>
      r.value.lang == (if Capture(KindValue, item).Some? then Capture(KindValue, item).value else "unknown")
  {
    match Capture(FileValue, item)
    case None => None
    case Some(file) =>
      var kind := match Capture(KindValue, item) case Some(k) => k case None => "";
      var name := match Capture(LabelValue, item) case Some(l) => l case None => if kind != "" then kind else "track";
      var lang := match Capture(LangValue, item) case Some(l) => l case None => if kind != "" then kind else "unknown";
      Some(Track(Absolute(rt, domain, file), lang, name))
  }

  /** What the track loop finds at each item, in item order. */
  function TrackOptions(rt: Runtime, domain: string, items: seq<string>): (r: seq<Option<Track>>)
    ensures |r| == |items|
  {
    seq(|items|, k requires 0 <= k < |items| => TrackOf(rt, domain, items[k]))
  }

  /** The tracks of the items that have a `file`, in item order, each with a label and a language. */
  function TracksOf(rt: Runtime, domain: string, items: seq<string>): (r: seq<Track>)
    ensures |r| <= |items|
    ensures forall t :: t in r ==> t.name != [] && t.lang != []
  {
    Somes(TrackOptions(rt, domain, items))
  }

  /** Items without `file` are skipped; when every item has one, there is one track per item, in order. */
  lemma TracksOfAllFiles(rt: Runtime, domain: string, items: seq<string>)
    requires forall k :: 0 <= k < |items| ==> Capture(FileValue, items[k]).Some?
    ensures |TracksOf(rt, domain, items)| == |items|
    ensures forall k :: 0 <= k < |items| ==> TracksOf(rt, domain, items)[k] == TrackOf(rt, domain, items[k]).value
  {
    SomesAllPresent(TrackOptions(rt, domain, items));
  }

  /** There are no tracks exactly when no item has a `file`. */
  lemma TracksOfEmpty(rt: Runtime, domain: string, items: seq<string>)
    ensures TracksOf(rt, domain, items) == [] <==> forall k :: 0 <= k < |items| ==> Capture(FileValue, items[k]).None?
  {
    var opts := TrackOptions(rt, domain, items);
    assert forall k :: 0 <= k < |items| ==> opts[k] == TrackOf(rt, domain, items[k]);
    SomesEmpty(opts);
  }

  /** The brace-delimited items of the `tracks: [...]` list, if it is present and non-empty. */
  function TrackItems(setupText: string): seq<string> {
    match Exec(TracksBlock, setupText)
    case Some(m) => if m.group.Some? && m.group.value != "" then MatchAll(BraceItem, m.group.value) else []
    case None => []
  }

  function Tracks(rt: Runtime, domain: string, setupText: string): seq<Track> {
    TracksOf(rt, domain, TrackItems(setupText))
  }

  /** The track loop, with `continue` for items without `file`. */
  method CollectTracks(rt: Runtime, domain: string, setupText: string) returns (tracks: seq<Track>)
    ensures tracks == Tracks(rt, domain, setupText)
  {
    tracks := [];
    var items := TrackItems(setupText);
    ghost var found := TrackOptions(rt, domain, items);
    for i := 0 to |items|
      invariant tracks == Somes(found[..i])
    {
      var t := TrackOf(rt, domain, items[i]);
      SomesPrefix(found, i);
      if t.None? {
        continue;
      }
      tracks := tracks + [t.value];
    }
    assert found[..|items|] == found;
  }

  // ---------------------------------------------------------------- assembly

  /** The headers put in every proxy payload, in insertion order. */
  function PayloadHeaders(domain: string): seq<(string, string)> {
    [("User-Agent", UserAgent), ("Referer", domain)]
  }

  /** The poster: the `image` value made absolute. */
  function Poster(rt: Runtime, domain: string, setupText: string): Option<string> {
    match Capture(ImageValue, setupText)
    case Some(image) => Some(Absolute(rt, domain, image))
    case None => None
  }

  /** The page headers: the payload headers and, when the poster is a non-empty string, `X-Poster`. */
  function PageHeaders(domain: string, poster: Option<string>): seq<(string, string)> {
    PayloadHeaders(domain) + (if poster.Some? && poster.value != "" then [("X-Poster", poster.value)] else [])
  }

  function Assemble(rt: Runtime, domain: string, setupText: string, sources: seq<Stream>, tracks: seq<Track>): Source {
    Source(
      ProxyStreams(sources, PayloadHeaders(domain), ""),
      tracks,
      [],
      Unknown,
      Unknown,
      PageHeaders(domain, Poster(rt, domain, setupText)))
  }

  /** `extractVidmoly(baseUrl)` as a value: the outcome and the requests sent. */
  function Extract(rt: Runtime, patterns: seq<SetupPattern>, baseUrl: string): (r: Run)
    ensures rt.origin(baseUrl).None? ==> r == Run(Err(InvalidUrl(baseUrl)), [])
    ensures rt.origin(baseUrl).Some? ==> r.requests == LoadPage(rt, baseUrl).1
    ensures |r.requests| <= 2
    ensures |r.requests| == 2 ==> IsInterstitial(rt.fetch(Get(baseUrl)).value)
    ensures r.result.Err? && r.result.error.Transport? ==> r.result.error.request == r.requests[|r.requests| - 1]
    ensures r.result == Err(SetupBlockNotFound) <==>
      rt.origin(baseUrl).Some? && LoadPage(rt, baseUrl).0.Ok?
      && SetupText(LoadPage(rt, baseUrl).0.value, patterns).None?
    ensures r.result == Err(NoSources) <==>
      rt.origin(baseUrl).Some? && LoadPage(rt, baseUrl).0.Ok?
      && SetupText(LoadPage(rt, baseUrl).0.value, patterns).Some?
      && SourceChain(rt, rt.origin(baseUrl).value, SetupText(LoadPage(rt, baseUrl).0.value, patterns).value) == []
  {
    match rt.origin(baseUrl)
    case None => Run(Err(InvalidUrl(baseUrl)), [])
    case Some(domain) =>
      var (page, requests) := LoadPage(rt, baseUrl);
      match page
      case Err(e) => Run(Err(e), requests)
      case Ok(html) =>
        match SetupText(html, patterns)
        case None => Run(Err(SetupBlockNotFound), requests)
        case Some(setupText) =>
          var sources := SourceChain(rt, domain, setupText);
          if sources == [] then Run(Err(NoSources), requests)
          else Run(Ok(Assemble(rt, domain, setupText, sources, Tracks(rt, domain, setupText))), requests)
  }

  /** `extractVidmoly`, step by step as the adapter runs it. */
  method ExtractVidmoly(rt: Runtime, patterns: seq<SetupPattern>, baseUrl: string) returns (run: Run)
    ensures run == Extract(rt, patterns, baseUrl)
  {
    var parsed := rt.origin(baseUrl);
    if parsed.None? {
      return Run(Err(InvalidUrl(baseUrl)), []);
    }
    var domain := parsed.value;
    var page, requests := FetchPage(rt, baseUrl);
    if page.Err? {
      return Run(Err(page.error), requests);
    }
    var setupText := LocateSetup(page.value, patterns);
    if setupText.None? {
      return Run(Err(SetupBlockNotFound), requests);
    }
    var sources := CollectSources(rt, domain, setupText.value);
    if |sources| == 0 {
      return Run(Err(NoSources), requests);
    }
    var tracks := CollectTracks(rt, domain, setupText.value);
    run := Run(Ok(Assemble(rt, domain, setupText.value, sources, tracks)), requests);
  }

  /** Every header name of `PageHeaders` other than `X-Poster` is a payload header. */
  lemma PosterHeader(domain: string, poster: Option<string>)
    ensures var h := PageHeaders(domain, poster);
      (exists j :: 0 <= j < |h| && h[j].0 == "X-Poster") <==> poster.Some? && poster.value != []
    ensures poster.Some? && poster.value != [] ==>
      PageHeaders(domain, poster)[|PageHeaders(domain, poster)| - 1] == ("X-Poster", poster.value)
  {
    var h := PageHeaders(domain, poster);
    assert h[0].0 == "User-Agent" && h[1].0 == "Referer";
    if poster.Some? && poster.value != [] {
      assert h[2].0 == "X-Poster";
    } else {
      assert |h| == 2;
    }
  }

  /**
    The assembled response: one proxied source per extracted stream, in
    order and with its quality, whose URL decodes to the stream's URL and
    the payload headers; the given tracks; no audio; unknown intro and
    outro; the payload headers first and `X-Poster` exactly when a
    non-empty poster was found.
  */
  lemma AssembleShape(rt: Runtime, domain: string, setupText: string, raw: seq<Stream>, tracks: seq<Track>)
    ensures var src := Assemble(rt, domain, setupText, raw, tracks);
      && |src.sources| == |raw|
      && (forall k :: 0 <= k < |src.sources| ==>
            src.sources[k].quality == raw[k].quality
            && Codec.DecodeProxyPath(src.sources[k].url, "") == Some(Json.Payload(raw[k].url, PayloadHeaders(domain))))
      && src.tracks == tracks
      && src.audio == [] && src.intro == Unknown && src.outro == Unknown
      && src.headers[..2] == PayloadHeaders(domain)
      && ((exists j :: 0 <= j < |src.headers| && src.headers[j].0 == "X-Poster") <==>
            var poster := Poster(rt, domain, setupText); poster.Some? && poster.value != [])
  {
    forall k | 0 <= k < |raw|
      ensures Codec.DecodeProxyPath(ProxyStreams(raw, PayloadHeaders(domain), "")[k].url, "")
           == Some(Json.Payload(raw[k].url, PayloadHeaders(domain)))
    {
      ProxyStreamsDecode(raw, PayloadHeaders(domain), "", k);
    }
    PosterHeader(domain, Poster(rt, domain, setupText));
  }

  /**
    A successful run: the page loaded, a setup block was found, and the
    response is the assembly of the chain's sources (at least one, all with
    the setup text's quality, `TopQuality`) and the tracks of the setup text; `AssembleShape`
    says what that assembly holds.
  */
  lemma ExtractOk(rt: Runtime, patterns: seq<SetupPattern>, baseUrl: string)
    requires Extract(rt, patterns, baseUrl).result.Ok?
    ensures rt.origin(baseUrl).Some? && LoadPage(rt, baseUrl).0.Ok?
    ensures SetupText(LoadPage(rt, baseUrl).0.value, patterns).Some?
    ensures var domain := rt.origin(baseUrl).value;
      var setupText := SetupText(LoadPage(rt, baseUrl).0.value, patterns).value;
      var raw := SourceChain(rt, domain, setupText);
      && raw != []
      && (forall k :: 0 <= k < |raw| ==> raw[k].quality == TopQuality(setupText))
      && Extract(rt, patterns, baseUrl).result.value == Assemble(rt, domain, setupText, raw, Tracks(rt, domain, setupText))
  {
  }
}
