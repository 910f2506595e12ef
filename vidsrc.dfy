/** Streaming-locator resolution (`get_vidsrc_streaming_url`) and direct-media extraction
    (`resolve_player_url`). Each page fetch is an input: `fetch` maps the URL requested to
    what came back, already parsed into the few elements the code inspects. */
module Vidsrc {
  import opened Wrappers
  import opened Text
  import M3u8
  import opened Http

  /** The mirror domains, in the order they are tried. */
  const Domains: seq<string> := ["https://vidsrc.to", "https://vidsrc.me"]

  // ---------------------------------------------------------------------------
  // Embed pages on the mirror domains

  /** A parsed embed page: the `src` attribute (if any) of every `iframe`, in document order. */
  datatype EmbedPage = EmbedPage(iframeSrcs: seq<Option<string>>)

  /** The outcome of one GET on a mirror: the send failed, or a status and a body that
      could be read (`Some`) or not (`None`). */
  datatype EmbedFetch = EmbedSendFailed | EmbedResponse(status: nat, body: Option<EmbedPage>)

  /** The selector `iframe[src*='2embed'], iframe[src*='vidsrc.me/player'],
      iframe[src*='vidsrc.xyz/player'], iframe[src*='player.vidsrc.to']`, on one iframe. */
  predicate IsEmbedSrc(src: Option<string>) {
    src.Some? &&
    (Contains(src.value, "2embed") || Contains(src.value, "vidsrc.me/player")
     || Contains(src.value, "vidsrc.xyz/player") || Contains(src.value, "player.vidsrc.to"))
  }

  /** The `src` of the first iframe the selector matches. */
  function FirstEmbedSrc(srcs: seq<Option<string>>): (r: Option<string>)
    ensures r.Some? ==> exists i :: 0 <= i < |srcs| && srcs[i] == r && IsEmbedSrc(srcs[i])
                                    && forall j :: 0 <= j < i ==> !IsEmbedSrc(srcs[j])
    ensures r.None? ==> forall j :: 0 <= j < |srcs| ==> !IsEmbedSrc(srcs[j])
  {
    if srcs == [] then None
    else if IsEmbedSrc(srcs[0]) then srcs[0]
    else
      var r := FirstEmbedSrc(srcs[1..]);
      assert forall j :: 1 <= j < |srcs| ==> srcs[j] == srcs[1..][j - 1];
      r
  }

  /** A scheme-relative `src` (`//host/...`) gets `https:` in front; any other is kept. */
  function UpgradeScheme(src: string): string {
    if StartsWith(src, "//") then "https:" + src else src
  }

  /** The player-page URL on one domain, or `None` when the request is malformed: a `tv`
      request without both season and episode, or a media type other than `movie`/`tv`. */
  function EmbedUrl(domain: string, tmdbId: string, mediaType: string,
                    season: Option<nat>, episode: Option<nat>): (r: Option<string>)
    ensures r.Some? <==> mediaType == "movie" || (mediaType == "tv" && season.Some? && episode.Some?)
    ensures mediaType == "movie" ==> r == Some(domain + "/embed/movie/" + tmdbId)
    ensures mediaType == "tv" && season.Some? && episode.Some? ==>
      r == Some(domain + "/embed/tv/" + tmdbId + "/" + NatToString(season.value) + "-"
                + NatToString(episode.value))
  {
    if mediaType == "movie" then Some(domain + "/embed/movie/" + tmdbId)
    else if mediaType == "tv" then
      if season.Some? && episode.Some? then
        Some(domain + "/embed/tv/" + tmdbId + "/" + NatToString(season.value) + "-"
             + NatToString(episode.value))
      else None
    else None
  }

  /** What one domain's fetch means for the loop. */
  datatype Probe = Found(url: string) | Skip | Abort

  /** A failed send, a non-success status, or no matching iframe move on to the next
      domain; a body that cannot be read ends the whole search with an error. */
  function ProbeOf(f: EmbedFetch): Probe {
    match f
    case EmbedSendFailed => Skip
    case EmbedResponse(status, body) =>
      if !IsSuccess(status) then Skip
      else if body.None? then Abort
      else
        match FirstEmbedSrc(body.value.iframeSrcs)
        case Some(src) => Found(UpgradeScheme(src))
        case None => Skip
  }

  /** The outcome of the domain loop from domain `i` on, one domain at a time: a
      malformed request gives nothing, a found iframe ends the search, an unreadable body
      is an error, and a skipped domain moves on to the next one. */
  function LocateFrom(i: nat, tmdbId: string, mediaType: string, season: Option<nat>,
                      episode: Option<nat>, fetch: string -> EmbedFetch)
    : Result<Option<string>, FetchError>
    decreases |Domains| - i
  {
    if i >= |Domains| then Success(None)
    else match EmbedUrl(Domains[i], tmdbId, mediaType, season, episode)
      case None => Success(None)
      case Some(url) =>
        match ProbeOf(fetch(url))
        case Found(src) => Success(Some(src))
        case Abort => Failure(TransportError)
        case Skip => LocateFrom(i + 1, tmdbId, mediaType, season, episode, fetch)
  }

  /** What `get_vidsrc_streaming_url` returns, as a function of what the mirrors answer. */
  function Locate(tmdbId: string, mediaType: string, season: Option<nat>,
                  episode: Option<nat>, fetch: string -> EmbedFetch)
    : Result<Option<string>, FetchError>
  {
    LocateFrom(0, tmdbId, mediaType, season, episode, fetch)
  }

  /** `get_vidsrc_streaming_url`. `probed` lists the URLs requested, in order. */
  method GetStreamingUrl(tmdbId: string, mediaType: string, season: Option<nat>,
                         episode: Option<nat>, fetch: string -> EmbedFetch)
    returns (r: Result<Option<string>, FetchError>, ghost probed: seq<string>)
    // a malformed request returns nothing and fetches nothing
    ensures EmbedUrl(Domains[0], tmdbId, mediaType, season, episode).None? <==> probed == []
    ensures probed == [] ==> r == Success(None)
    // domains are requested in order, each at its own embed URL
    ensures |probed| <= |Domains|
    ensures forall k :: 0 <= k < |probed| ==>
      EmbedUrl(Domains[k], tmdbId, mediaType, season, episode) == Some(probed[k])
    // every domain before the last one requested was skipped
    ensures forall k :: 0 <= k < |probed| - 1 ==> ProbeOf(fetch(probed[k])) == Skip
    // the last one requested decides the result
    ensures r.Success? && r.value.Some? ==>
      probed != [] && ProbeOf(fetch(probed[|probed| - 1])) == Found(r.value.value)
    ensures r.Failure? ==> probed != [] && ProbeOf(fetch(probed[|probed| - 1])) == Abort
    ensures r == Success(None) && probed != [] ==>
      |probed| == |Domains| && ProbeOf(fetch(probed[|probed| - 1])) == Skip
    ensures r == Locate(tmdbId, mediaType, season, episode, fetch)
  {
    probed := [];
    var i := 0;
    while i < |Domains|
      invariant 0 <= i <= |Domains| && |probed| == i
      invariant forall k :: 0 <= k < i ==>
        EmbedUrl(Domains[k], tmdbId, mediaType, season, episode) == Some(probed[k])
      invariant forall k :: 0 <= k < i ==> ProbeOf(fetch(probed[k])) == Skip
      invariant Locate(tmdbId, mediaType, season, episode, fetch)
             == LocateFrom(i, tmdbId, mediaType, season, episode, fetch)
    {
      var urlToTry := EmbedUrl(Domains[i], tmdbId, mediaType, season, episode);
      if urlToTry.None? {
        return Success(None), probed;
      }
      probed := probed + [urlToTry.value];
      var response := fetch(urlToTry.value);
      match response {
        case EmbedSendFailed =>
        case EmbedResponse(status, body) =>
          if IsSuccess(status) {
            if body.None? {
              return Failure(TransportError), probed;
            }
            var src := FirstEmbedSrc(body.value.iframeSrcs);
            if src.Some? {
              var fullSrc := src.value;
              if StartsWith(fullSrc, "//") {
                fullSrc := "https:" + fullSrc;
              }
              return Success(Some(fullSrc)), probed;
            }
          }
      }
      i := i + 1;
    }
    r := Success(None);
  }

  /** Upgrading is idempotent: an upgraded `src` starts with `https:` and is left alone. */
  lemma UpgradeSchemeIdempotent(src: string)
    ensures UpgradeScheme(UpgradeScheme(src)) == UpgradeScheme(src)
  {
    if StartsWith(src, "//") {
      assert ("https:" + src)[..2] == "ht";
    }
  }

  // ---------------------------------------------------------------------------
  // Player pages

  /** A `video` element: its own `src`, and the `src` of each nested `source`. */
  datatype Video = Video(src: Option<string>, sourceSrcs: seq<Option<string>>)

  /** A parsed player page: its `video` elements and the inner text of its `script`
      elements, both in document order. */
  datatype PlayerPage = PlayerPage(videos: seq<Video>, scripts: seq<string>)

  datatype PlayerFetch = PlayerSendFailed | PlayerResponse(status: nat, body: Option<PlayerPage>)

  /** `https:` is put in front of a URL that starts with neither `http://` nor `https://`. */
  function NormalizePlayerUrl(url: string): string {
    if StartsWith(url, "http://") || StartsWith(url, "https://") then url else "https:" + url
  }

  /** A locator the resolver hands over after upgrading is not touched again, provided it
      was scheme-relative or absolute to begin with. */
  lemma NormalizeAfterUpgrade(src: string)
    requires StartsWith(src, "//") || StartsWith(src, "http://") || StartsWith(src, "https://")
    ensures NormalizePlayerUrl(UpgradeScheme(src)) == UpgradeScheme(src)
  {
    if StartsWith(src, "//") {
      var u := "https:" + src;
      assert u[..8] == "https://" by {
        assert u[..6] == "https:" && u[6..8] == src[..2];
      }
    } else {
      assert src[..2] == "ht" by {
        if StartsWith(src, "http://") {
          assert src[..7][..2] == src[..2];
        } else {
          assert src[..8][..2] == src[..2];
        }
      }
    }
  }

  /** Stages 1 and 2: the first `video`'s own `src`, else the `src` of its first nested
      `source`. Later `video` elements and later `source` elements are never looked at. */
  function VideoStage(videos: seq<Video>): (r: Option<string>)
    ensures r.Some? ==> videos != []
    ensures videos != [] && videos[0].src.Some? ==> r == videos[0].src
    ensures videos != [] && videos[0].src.None? ==>
      r == (if videos[0].sourceSrcs == [] then None else videos[0].sourceSrcs[0])
  {
    if videos == [] then None
    else if videos[0].src.Some? then videos[0].src
    else if videos[0].sourceSrcs == [] then None
    else videos[0].sourceSrcs[0]
  }

  /** Only the first `video` and the first `source` inside it are read: videos that
      agree on those give the same URL, whatever follows them. */
  lemma VideoStageReadsOnlyFirst(v: Video, rest1: seq<Video>, w: Video, rest2: seq<Video>)
    requires w.src == v.src
    requires (w.sourceSrcs == []) == (v.sourceSrcs == [])
    requires v.sourceSrcs != [] ==> w.sourceSrcs[0] == v.sourceSrcs[0]
    ensures VideoStage([v] + rest1) == VideoStage([w] + rest2)
    ensures VideoStage([]) == None
  {
    assert ([v] + rest1)[0] == v && ([w] + rest2)[0] == w;
  }

  const FileMarker: string := "file:\""

  /** The text after the first `file:"` up to the next `"`, if the closing quote exists. */
  function FileMarkerValue(script: string): (r: Option<string>)
    ensures r.Some? ==> IndexOf(script, FileMarker).Some?
    ensures r.Some? ==>
      var start := IndexOf(script, FileMarker).value + |FileMarker|;
      && start + |r.value| < |script|
      && script[start..start + |r.value|] == r.value
      && script[start + |r.value|] == '"'
      && forall k :: 0 <= k < |r.value| ==> r.value[k] != '"'
    ensures r.None? <==> (IndexOf(script, FileMarker).None? ||
      !Contains(script[IndexOf(script, FileMarker).value + |FileMarker|..], "\""))
  {
    match IndexOf(script, FileMarker)
    case None => None
    case Some(start) =>
      var from := start + |FileMarker|;
      match IndexOf(script[from..], "\"")
      case None => None
      case Some(end) =>
        QuoteAfter(script, from, end);
        Some(script[from..from + end])
  }

  /** The first quote at or after `from`, found in the rest of the text. */
  lemma QuoteAfter(script: string, from: nat, end: nat)
    requires from <= |script| && IndexOf(script[from..], "\"") == Some(end)
    ensures from + end < |script| && script[from + end] == '"'
    ensures forall k :: from <= k < from + end ==> script[k] != '"'
  {
    var rest := script[from..];
    assert OccursAt(rest, "\"", end);
    assert rest[end] == script[from + end];
    forall k | from <= k < from + end ensures script[k] != '"' {
      assert !OccursAt(rest, "\"", k - from);
      assert rest[k - from] == script[k];
    }
  }

  /** Stages 3 and 4 on one script: the `file:"` value when it names an `.m3u8` or `.mp4`,
      otherwise the leftmost `https?://[^"]+\.m3u8` match. */
  function ScriptStage(script: string): Option<string> {
    var v := FileMarkerValue(script);
    if v.Some? && (Contains(v.value, ".m3u8") || Contains(v.value, ".mp4")) then v
    else M3u8.Find(script)
  }

  /** Whatever a script yields names an HLS playlist or an MP4 file. */
  lemma ScriptStageNamesMedia(script: string)
    requires ScriptStage(script).Some?
    ensures Contains(ScriptStage(script).value, ".m3u8") || Contains(ScriptStage(script).value, ".mp4")
  {
    var v := FileMarkerValue(script);
    if !(v.Some? && (Contains(v.value, ".m3u8") || Contains(v.value, ".mp4"))) {
      M3u8.FindShape(script);
      var u := M3u8.Find(script).value;
      assert OccursAt(u, ".m3u8", |u| - 5);
    }
  }

  /** `r` is what the script loop returns: the result of the first script that yields one. */
  ghost predicate FirstScriptHit(scripts: seq<string>, r: Option<string>) {
    && (r.None? <==> forall i :: 0 <= i < |scripts| ==> ScriptStage(scripts[i]).None?)
    && (r.Some? ==> exists i :: 0 <= i < |scripts| && ScriptStage(scripts[i]) == r
                                && forall j :: 0 <= j < i ==> ScriptStage(scripts[j]).None?)
  }

  /** The first script hit, one script at a time. */
  function FirstScript(scripts: seq<string>): (r: Option<string>)
    ensures FirstScriptHit(scripts, r)
  {
    if scripts == [] then None
    else if ScriptStage(scripts[0]).Some? then ScriptStage(scripts[0])
    else
      var r := FirstScript(scripts[1..]);
      assert forall j :: 1 <= j < |scripts| ==> scripts[j] == scripts[1..][j - 1];
      if r.Some? then
        var i :| 0 <= i < |scripts[1..]| && ScriptStage(scripts[1..][i]) == r
                 && forall j :: 0 <= j < i ==> ScriptStage(scripts[1..][j]).None?;
        assert ScriptStage(scripts[i + 1]) == r;
        r
      else r
  }

  /** What `resolve_player_url` returns, as a function of the player page's fetch. */
  function Resolve(playerPageUrl: string, fetch: string -> PlayerFetch)
    : Result<Option<string>, FetchError>
  {
    match fetch(NormalizePlayerUrl(playerPageUrl))
    case PlayerSendFailed => Failure(TransportError)
    case PlayerResponse(status, body) =>
      if !IsSuccess(status) then Success(None)
      else if body.None? then Failure(TransportError)
      else if VideoStage(body.value.videos).Some? then Success(VideoStage(body.value.videos))
      else Success(FirstScript(body.value.scripts))
  }

  /** The script loop's contract pins its result down: two hits of the same scripts agree. */
  lemma FirstScriptHitUnique(scripts: seq<string>, a: Option<string>, b: Option<string>)
    requires FirstScriptHit(scripts, a) && FirstScriptHit(scripts, b)
    ensures a == b
  {
    if a.Some? {
      var i :| 0 <= i < |scripts| && ScriptStage(scripts[i]) == a
               && forall j :: 0 <= j < i ==> ScriptStage(scripts[j]).None?;
      assert b.Some? by { assert ScriptStage(scripts[i]).Some?; }
      var k :| 0 <= k < |scripts| && ScriptStage(scripts[k]) == b
               && forall j :: 0 <= j < k ==> ScriptStage(scripts[j]).None?;
      if i < k {
        assert false;
      } else if k < i {
        assert false;
      }
    }
  }

  /** `resolve_player_url`. */
  method ResolvePlayerUrl(playerPageUrl: string, fetch: string -> PlayerFetch)
    returns (r: Result<Option<string>, FetchError>)
    ensures fetch(NormalizePlayerUrl(playerPageUrl)).PlayerSendFailed? ==> r.Failure?
    ensures fetch(NormalizePlayerUrl(playerPageUrl)).PlayerResponse? ==>
      var f := fetch(NormalizePlayerUrl(playerPageUrl));
      && (!IsSuccess(f.status) ==> r == Success(None))
      && (IsSuccess(f.status) && f.body.None? ==> r.Failure?)
      && (IsSuccess(f.status) && f.body.Some? ==>
            var page := f.body.value;
            && (VideoStage(page.videos).Some? ==> r == Success(VideoStage(page.videos)))
            && (VideoStage(page.videos).None? ==> r.Success? && FirstScriptHit(page.scripts, r.value)))
    ensures r == Resolve(playerPageUrl, fetch)
  {
    var currentUrl := playerPageUrl;
    if !StartsWith(currentUrl, "http://") && !StartsWith(currentUrl, "https://") {
      currentUrl := "https:" + currentUrl;
    }
    var response := fetch(currentUrl);
    if response.PlayerSendFailed? {
      return Failure(TransportError);
    }
    if !IsSuccess(response.status) {
      return Success(None);
    }
    if response.body.None? {
      return Failure(TransportError);
    }
    var page := response.body.value;
    if page.videos != [] {
      var videoTag := page.videos[0];
      if videoTag.src.Some? {
        return Success(videoTag.src);
      }
      if videoTag.sourceSrcs != [] && videoTag.sourceSrcs[0].Some? {
        return Success(videoTag.sourceSrcs[0]);
      }
    }
    var hit := ScanScripts(page.scripts);
    FirstScriptHitUnique(page.scripts, hit, FirstScript(page.scripts));
    r := Success(hit);
  }

  /** The script loop of `resolve_player_url`: scripts in document order, each tried with
      the `file:"` literal and then the regular expression. */
  method ScanScripts(scripts: seq<string>) returns (r: Option<string>)
    ensures FirstScriptHit(scripts, r)
  {
    var i := 0;
    while i < |scripts|
      invariant 0 <= i <= |scripts|
      invariant forall j :: 0 <= j < i ==> ScriptStage(scripts[j]).None?
    {
      var hit := TryScript(scripts[i]);
      if hit.Some? {
        return hit;
      }
      i := i + 1;
    }
    r := None;
  }

  /** One pass of the script loop: the `file:"` literal first, then the regular
      expression. */
  method TryScript(scriptText: string) returns (hit: Option<string>)
    ensures hit == ScriptStage(scriptText)
  {
    var potential := FileMarkerValue(scriptText);
    if potential.Some? && (Contains(potential.value, ".m3u8") || Contains(potential.value, ".mp4")) {
      return potential;
    }
    hit := M3u8.Find(scriptText);
  }
}
