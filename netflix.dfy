/** The Netflix helpers: the `H.M` time parser and the seek clamp of
    `skip_to_specific_timeline`, show/movie classification, the search-result filter, and
    the episode extraction. GraphQL and search responses arrive decoded. */
module Netflix {
  import opened Wrappers
  import opened Text
  import opened Json
  import opened Seqs

  // ---------------------------------------------------------------------------
  // Time

  /** `u64` arithmetic as a release build performs it: modulo 2^64. */
  function Wrap64(x: nat): (r: nat)
    ensures r < U64_LIMIT
    ensures x < U64_LIMIT ==> r == x
  {
    x % U64_LIMIT
  }

  /** `convert_time_format`: `H` or `H.M` (anything after a second `.` is ignored) to
      milliseconds. Hours and minutes must parse as `u64`; a missing minutes part is 0, an
      empty one is not; minutes of 60 or more are refused. */
  function ConvertTimeFormat(s: string): (r: Option<nat>)
    ensures r.Some? ==> r.value < U64_LIMIT
    ensures ParseUnsigned(Split(s, '.')[0], U64_LIMIT).None? ==> r.None?
    ensures |Split(s, '.')| > 1 && ParseUnsigned(Split(s, '.')[1], U64_LIMIT).None? ==> r.None?
    ensures |Split(s, '.')| > 1 && ParseUnsigned(Split(s, '.')[1], U64_LIMIT).Some? ==>
      (ParseUnsigned(Split(s, '.')[1], U64_LIMIT).value >= 60 ==> r.None?)
  {
    var parts := Split(s, '.');
    ConvertParts(parts[0], if |parts| > 1 then parts[1] else "0")
  }

  /** The conversion once the input is split into its hours and minutes texts. */
  function ConvertParts(hoursText: string, minutesText: string): (r: Option<nat>)
    ensures r.Some? ==> r.value < U64_LIMIT
    ensures r.Some? <==>
      && ParseUnsigned(hoursText, U64_LIMIT).Some?
      && ParseUnsigned(minutesText, U64_LIMIT).Some?
      && ParseUnsigned(minutesText, U64_LIMIT).value < 60
    ensures r.Some? ==>
      r.value == Millis(ParseUnsigned(hoursText, U64_LIMIT).value,
                        ParseUnsigned(minutesText, U64_LIMIT).value)
  {
    match ParseUnsigned(hoursText, U64_LIMIT)
    case None => None
    case Some(hours) =>
      match ParseUnsigned(minutesText, U64_LIMIT)
      case None => None
      case Some(minutes) =>
        if minutes >= 60 then None else Some(Millis(hours, minutes))
  }

  /** `((hours * 60 + minutes) * 60) * 1000` in wrapping `u64` arithmetic. */
  function Millis(hours: nat, minutes: nat): (r: nat)
    ensures r < U64_LIMIT
  {
    var totalMinutes := Wrap64(Wrap64(hours * 60) + minutes);
    Wrap64(Wrap64(totalMinutes * 60) * 1000)
  }

  /** Decimal digits contain no `.`. */
  lemma NoDotInNumber(n: nat)
    ensures forall k :: 0 <= k < |NatToString(n)| ==> NatToString(n)[k] != '.'
  {
  }

  /** No intermediate product wraps while the final number of milliseconds fits. */
  lemma NoWrap(h: nat, m: nat)
    requires (h * 60 + m) * 60000 < U64_LIMIT
    ensures Millis(h, m) == (h * 60 + m) * 60000
  {
    assert h * 60 <= h * 60 + m <= (h * 60 + m) * 60 <= (h * 60 + m) * 60000;
  }

  /** The conversion from the pieces `split('.')` produced and what they parse to. */
  lemma ConvertFromParts(s: string, hs: string, ms: string, h: nat, m: nat)
    requires Split(s, '.') == [hs, ms] || (Split(s, '.') == [hs] && ms == "0")
    requires ParseUnsigned(hs, U64_LIMIT) == Some(h) && ParseUnsigned(ms, U64_LIMIT) == Some(m)
    requires m < 60 && (h * 60 + m) * 60000 < U64_LIMIT
    ensures ConvertTimeFormat(s) == Some((h * 60 + m) * 60000)
  {
    NoWrap(h, m);
  }

  /** `H.M` is `(H * 60 + M) * 60 * 1000` milliseconds. */
  lemma ConvertHoursMinutes(h: nat, m: nat)
    requires m < 60 && (h * 60 + m) * 60000 < U64_LIMIT
    ensures ConvertTimeFormat(NatToString(h) + "." + NatToString(m)) == Some((h * 60 + m) * 60000)
  {
    var hs, ms := NatToString(h), NatToString(m);
    var s := hs + "." + ms;
    assert Split(s, '.') == [hs, ms] by {
      NoDotInNumber(h);
      NoDotInNumber(m);
      assert s == hs + ['.'] + ms;
      SplitAround(hs, '.', ms);
      SplitNoSep(ms, '.');
    }
    ParseNatToString(h, U64_LIMIT);
    ParseNatToString(m, U64_LIMIT);
    ConvertFromParts(s, hs, ms, h, m);
  }

  /** A bare `H` counts its minutes as 0. */
  lemma ConvertHoursOnly(h: nat)
    requires h * 3600000 < U64_LIMIT
    ensures ConvertTimeFormat(NatToString(h)) == Some(h * 3600000)
  {
    var hs := NatToString(h);
    NoDotInNumber(h);
    SplitNoSep(hs, '.');
    ParseNatToString(h, U64_LIMIT);
    ParseZero();
    MillisOfHours(h);
  }

  lemma MillisOfHours(h: nat)
    requires h * 3600000 < U64_LIMIT
    ensures Millis(h, 0) == h * 3600000
  {
    assert (h * 60 + 0) * 60000 == h * 3600000;
    NoWrap(h, 0);
  }

  lemma ParseZero()
    ensures ParseUnsigned("0", U64_LIMIT) == Some(0)
  {
    assert DigitsValue("0") == 0;
  }

  /** Whatever follows a second `.` is ignored. */
  lemma ConvertIgnoresThirdPart(h: string, m: string, rest: string)
    requires forall k :: 0 <= k < |h| ==> h[k] != '.'
    requires forall k :: 0 <= k < |m| ==> m[k] != '.'
    ensures ConvertTimeFormat(h + "." + m + "." + rest) == ConvertTimeFormat(h + "." + m)
  {
    var s, t := h + "." + m + "." + rest, h + "." + m;
    SplitTwoThenRest(h, '.', m, rest);
    SplitTwo(h, '.', m);
    ConvertReadsTwoParts(s, t);
  }

  /** The conversion looks at the first two pieces of the split only. */
  lemma ConvertReadsTwoParts(s: string, t: string)
    requires Split(s, '.')[0] == Split(t, '.')[0]
    requires |Split(s, '.')| > 1 && |Split(t, '.')| > 1
    requires Split(s, '.')[1] == Split(t, '.')[1]
    ensures ConvertTimeFormat(s) == ConvertTimeFormat(t)
  {
  }

  /** Minutes of 60 or more are refused. */
  lemma ConvertRejectsMinutes(h: nat, m: nat)
    requires 60 <= m < U64_LIMIT && h < U64_LIMIT
    ensures ConvertTimeFormat(NatToString(h) + "." + NatToString(m)) == None
  {
    NoDotInNumber(h);
    NoDotInNumber(m);
    SplitAround(NatToString(h), '.', NatToString(m));
    SplitNoSep(NatToString(m), '.');
    ParseNatToString(h, U64_LIMIT);
    ParseNatToString(m, U64_LIMIT);
  }

  /** An empty input, and a `.` with nothing after it, are refused. */
  lemma ConvertRejectsEmptyParts(h: nat)
    requires h < U64_LIMIT
    ensures ConvertTimeFormat("") == None
    ensures ConvertTimeFormat(NatToString(h) + ".") == None
  {
    NoDotInNumber(h);
    assert NatToString(h) + "." == NatToString(h) + ['.'] + [];
    SplitAround(NatToString(h), '.', []);
  }

  datatype SeekError = InvalidTime | ZeroMax

  /** The target of `skip_to_specific_timeline` in milliseconds: the parsed time clamped
      to the knob's `aria-valuemax` seconds, read as a `u64` (`0` when missing or
      unparseable) and multiplied by 1000. A maximum of 0 is an error. */
  function SeekTarget(timeInput: string, valueMax: Option<string>): Result<nat, SeekError> {
    match ConvertTimeFormat(timeInput)
    case None => Failure(InvalidTime)
    case Some(target) =>
      var maxTime := Wrap64(ParseUnsigned(valueMax.GetOr("0"), U64_LIMIT).GetOr(0) * 1000);
      if maxTime == 0 then Failure(ZeroMax)
      else Success(if target < maxTime then target else maxTime)
  }

  /** The clamp: the target never passes the end, is the requested time when that is
      within the video, and the end otherwise. */
  lemma SeekTargetClamped(timeInput: string, valueMax: Option<string>)
    requires SeekTarget(timeInput, valueMax).Success?
    ensures var target := ConvertTimeFormat(timeInput).value;
      var maxTime := Wrap64(ParseUnsigned(valueMax.GetOr("0"), U64_LIMIT).GetOr(0) * 1000);
      var r := SeekTarget(timeInput, valueMax).value;
      && 0 < maxTime && r <= maxTime && r <= target
      && (r == target || r == maxTime)
  {
  }

  /** A missing or unparseable maximum counts as 0, so the seek is refused. */
  lemma SeekRejectsUnknownMax(timeInput: string, valueMax: Option<string>)
    requires ConvertTimeFormat(timeInput).Some?
    requires valueMax.None? || ParseUnsigned(valueMax.value, U64_LIMIT).None?
    ensures SeekTarget(timeInput, valueMax) == Failure(ZeroMax)
  {
    if valueMax.None? {
      assert ParseUnsigned("0", U64_LIMIT) == Some(0);
    }
  }

  // ---------------------------------------------------------------------------
  // Classification

  /** `ShowResult` */
  datatype ShowResult = ShowResult(showData: Json, isShow: bool)

  function MovieIdData(movieId: string): Json {
    JObj([("movie_id", JStr(movieId))])
  }

  /** `NetflixSearcher::is_show` on the decoded GraphQL answer. */
  function IsShow(movieId: string, response: Json): (r: ShowResult)
    ensures r.isShow <==>
      (AsArray(Field(Field(response, "data"), "videos")).Some?
       && AsArray(Field(Field(response, "data"), "videos")).value != []
       && Get(Field(AsArray(Field(Field(response, "data"), "videos")).value[0], "seasons"),
              "edges").Some?)
    ensures r.isShow ==> r.showData == AsArray(Field(Field(response, "data"), "videos")).value[0]
    ensures !r.isShow ==> r.showData == MovieIdData(movieId)
  {
    match AsArray(Field(Field(response, "data"), "videos"))
    case None => ShowResult(MovieIdData(movieId), false)
    case Some(videos) =>
      if videos == [] then ShowResult(MovieIdData(movieId), false)
      else
        var showData := videos[0];
        var isTvShow := Get(Field(showData, "seasons"), "edges").Some?;
        ShowResult(if isTvShow then showData else MovieIdData(movieId), isTvShow)
  }

  /** A first video with `seasons: {"edges": ...}` is a show whatever its edges hold; only
      the key is looked at. */
  lemma IsShowByEdgesKey(movieId: string, video: Json, rest: seq<Json>, edges: Json)
    requires video == JObj([("seasons", JObj([("edges", edges)]))])
    ensures IsShow(movieId, JObj([("data", JObj([("videos", JArr([video] + rest))]))]))
            == ShowResult(video, true)
  {
  }

  /** A response without videos is a movie identified by the id asked about. */
  lemma IsShowWithoutVideos(movieId: string, response: Json)
    requires AsArray(Field(Field(response, "data"), "videos")).None?
          || AsArray(Field(Field(response, "data"), "videos")).value == []
    ensures IsShow(movieId, response) == ShowResult(MovieIdData(movieId), false)
  {
  }

  // ---------------------------------------------------------------------------
  // Search

  /** The items of bucket `key` of the first search page entry, in map order. */
  function Bucket(first: Json, key: string): seq<Json> {
    match Get(first, key)
    case Some(v) => if v.JObj? then Values(v.members) else []
    case None => []
  }

  /** `jsonGraph.searchPage`'s first entry: its bucket `0` items, then its bucket `1`
      items. */
  function AllItems(response: Json): seq<Json> {
    match GetIn(Get(response, "jsonGraph"), "searchPage")
    case Some(page) =>
      if page.JObj? && page.members != [] then
        var first := page.members[0].1;
        Bucket(first, "0") + Bucket(first, "1")
      else []
    case None => []
  }

  /** `item.summary.value`, when `summary` is an object. */
  function Summary(item: Json): Option<Json> {
    match Get(item, "summary")
    case Some(s) => if s.JObj? then Lookup(s.members, "value") else None
    case None => None
  }

  /** The filter: a `summary.value.imgUrl` that is a non-empty string. */
  predicate HasImage(item: Json) {
    var img := if Summary(item).Some? then GetIn(Summary(item), "imgUrl") else None;
    img.Some? && img.value.JStr? && img.value.s != []
  }

  /** The items that pass the filter, in order. */
  function Imaged(items: seq<Json>): seq<Json> {
    Filter(items, HasImage)
  }

  /** One search result: the watch URL, the image URL, the display string, and the
      classification of the entity. */
  datatype SearchEntry = SearchEntry(url: string, imgUrl: string, displayString: string,
                                     show: ShowResult)

  /** `entityId`'s JSON text (`Value::to_string`, so a string keeps its quotes), or "". */
  function EntityId(summary: Json): string {
    match Get(summary, "entityId")
    case Some(v) => Render(v)
    case None => ""
  }

  const WatchPrefix: string := "https://netflix.com/watch/"

  function EntryOf(item: Json, classify: string -> ShowResult): SearchEntry
  {
    var summary := Summary(item).GetOr(JNull);
    var id := EntityId(summary);
    SearchEntry(WatchPrefix + id, AsStr(Field(summary, "imgUrl")).GetOr(""),
                AsStr(Field(summary, "displayString")).GetOr(""), classify(id))
  }

  function Entries(items: seq<Json>, classify: string -> ShowResult): (r: seq<SearchEntry>)
    ensures |r| == |items|
    ensures forall i :: 0 <= i < |items| ==> r[i] == EntryOf(items[i], classify)
  {
    Map(items, (item: Json) => EntryOf(item, classify))
  }

  /** The first nine items that pass the filter, as entries. */
  function FirstNine(items: seq<Json>, classify: string -> ShowResult): seq<SearchEntry> {
    var kept := Imaged(items);
    Entries(kept[..if |kept| < 9 then |kept| else 9], classify)
  }

  /** What `search` returns. `classify` is `is_show` as the network answers it. */
  function SearchResults(response: Json, classify: string -> ShowResult): seq<SearchEntry> {
    FirstNine(AllItems(response), classify)
  }

  /** `NetflixSearcher::search` after the response is decoded. */
  method Search(response: Json, classify: string -> ShowResult) returns (results: seq<SearchEntry>)
    ensures results == SearchResults(response, classify)
  {
    results := TakeImaged(AllItems(response), classify);
  }

  /** The loop of `search`: the filtered items are enumerated and taken nine at most, one
      entry pushed for each. */
  method TakeImaged(allItems: seq<Json>, classify: string -> ShowResult) returns (results: seq<SearchEntry>)
    ensures results == FirstNine(allItems, classify)
  {
    results := [];
    var i := 0;
    while i < |allItems| && |results| < 9
      invariant 0 <= i <= |allItems|
      invariant |Imaged(allItems[..i])| <= 9
      invariant results == Entries(Imaged(allItems[..i]), classify)
    {
      var item := allItems[i];
      ghost var seen := Imaged(allItems[..i]);
      assert allItems[..i + 1] == allItems[..i] + [item];
      FilterAppend(allItems[..i], [item], HasImage);
      FilterSingle(item, HasImage);
      if HasImage(item) {
        EntriesSnoc(seen, item, classify);
        results := results + [EntryOf(item, classify)];
      } else {
        assert seen + [] == seen;
      }
      i := i + 1;
    }
    TakeLoopExit(allItems, classify, i);
  }

  /** Where the loop of `TakeImaged` stops, what it gathered are the first nine. */
  lemma TakeLoopExit(allItems: seq<Json>, classify: string -> ShowResult, i: nat)
    requires i <= |allItems| && |Imaged(allItems[..i])| <= 9
    requires i == |allItems| || |Imaged(allItems[..i])| == 9
    ensures Entries(Imaged(allItems[..i]), classify) == FirstNine(allItems, classify)
  {
    assert allItems == allItems[..i] + allItems[i..];
    FilterAppend(allItems[..i], allItems[i..], HasImage);
    var kept := Imaged(allItems);
    var n := if |kept| < 9 then |kept| else 9;
    assert kept[..n] == Imaged(allItems[..i]);
  }

  lemma EntriesSnoc(items: seq<Json>, item: Json, classify: string -> ShowResult)
    ensures Entries(items + [item], classify) == Entries(items, classify) + [EntryOf(item, classify)]
  {
    MapSnoc(items, item, (item: Json) => EntryOf(item, classify));
  }

  /** At most nine results, each with a non-empty image and a watch URL. */
  lemma SearchResultsShape(response: Json, classify: string -> ShowResult)
    ensures |SearchResults(response, classify)| <= 9
    ensures forall e :: e in SearchResults(response, classify) ==>
      e.imgUrl != [] && StartsWith(e.url, WatchPrefix)
  {
    FirstNineShape(AllItems(response), classify);
  }

  lemma FirstNineShape(items: seq<Json>, classify: string -> ShowResult)
    ensures |FirstNine(items, classify)| <= 9
    ensures forall e :: e in FirstNine(items, classify) ==>
      e.imgUrl != [] && StartsWith(e.url, WatchPrefix)
  {
    var kept := Imaged(items);
    var taken := kept[..if |kept| < 9 then |kept| else 9];
    forall e | e in FirstNine(items, classify)
      ensures e.imgUrl != [] && StartsWith(e.url, WatchPrefix)
    {
      var i :| 0 <= i < |taken| && FirstNine(items, classify)[i] == e;
      assert HasImage(taken[i]);
      EntryShape(taken[i], classify);
    }
  }

  /** The entry of an item that passes the filter has its image and a watch URL. */
  lemma EntryShape(item: Json, classify: string -> ShowResult)
    requires HasImage(item)
    ensures EntryOf(item, classify).imgUrl != []
    ensures StartsWith(EntryOf(item, classify).url, WatchPrefix)
  {
    assert (WatchPrefix + EntityId(Summary(item).value))[..|WatchPrefix|] == WatchPrefix;
  }

  /** Bucket `0` comes first: when it alone holds nine imaged items, bucket `1` contributes
      nothing. */
  lemma SearchPrefersFirstBucket(response: Json, classify: string -> ShowResult,
                                 b0: seq<Json>, b1: seq<Json>)
    requires AllItems(response) == b0 + b1 && |Imaged(b0)| >= 9
    ensures SearchResults(response, classify) == Entries(Imaged(b0)[..9], classify)
  {
    FilterAppend(b0, b1, HasImage);
    var kept := Imaged(b0 + b1);
    assert kept[..9] == Imaged(b0)[..9];
  }

  // ---------------------------------------------------------------------------
  // Episodes

  /** `(number, title, videoId)` */
  datatype EpisodeTriple = EpisodeTriple(number: int, title: string, videoId: int)

  /** `data.videos[0].episodes.edges`, when it is an array. */
  function Edges(response: Json): Option<seq<Json>> {
    match GetIn(Get(response, "data"), "videos")
    case None => None
    case Some(videos) =>
      match GetIn(Get(At(videos, 0), "episodes"), "edges")
      case Some(edges) => AsArray(edges)
      case None => None
  }

  /** The triple of one `node`, with `0`, `"Unknown"` and `0` for what is missing or of
      the wrong type. */
  function TripleOf(node: Json): EpisodeTriple {
    EpisodeTriple(AsI64(Field(node, "number")).GetOr(0),
                  AsStr(Field(node, "title")).GetOr("Unknown"),
                  AsI64(Field(node, "videoId")).GetOr(0))
  }

  /** What one edge contributes: a triple when it has a `node`. */
  function EdgeTriples(edge: Json): seq<EpisodeTriple> {
    match Get(edge, "node")
    case Some(node) => [TripleOf(node)]
    case None => []
  }

  /** One triple per edge that has a `node`, in order. */
  function Triples(edges: seq<Json>): seq<EpisodeTriple> {
    FlatMap(edges, EdgeTriples)
  }

  /** When every edge has a node, the triples line up with the edges one to one. */
  lemma {:induction false} TriplesOneToOne(edges: seq<Json>)
    requires forall i :: 0 <= i < |edges| ==> Get(edges[i], "node").Some?
    ensures |Triples(edges)| == |edges|
    ensures forall i :: 0 <= i < |edges| ==> Triples(edges)[i] == TripleOf(Get(edges[i], "node").value)
  {
    if edges != [] {
      TriplesOneToOne(edges[1..]);
    }
  }

  /** An edge without a node adds nothing, and a node with no usable field gets the
      defaults. */
  lemma TriplesDefaults(edges: seq<Json>, edge: Json)
    requires Get(edge, "node").None?
    ensures Triples([edge] + edges) == Triples(edges)
    ensures Triples([JObj([("node", JNull)])]) == [EpisodeTriple(0, "Unknown", 0)]
  {
    assert ([edge] + edges)[1..] == edges;
  }

  /** `get_episodes_for_shows` after the response is decoded. */
  method EpisodesForShow(response: Json) returns (results: seq<EpisodeTriple>)
    ensures Edges(response).None? ==> results == []
    ensures Edges(response).Some? ==> results == Triples(Edges(response).value)
  {
    results := [];
    if Edges(response).None? {
      return;
    }
    var episodes := Edges(response).value;
    var i := 0;
    while i < |episodes|
      invariant 0 <= i <= |episodes|
      invariant results == Triples(episodes[..i])
    {
      assert episodes[..i + 1] == episodes[..i] + [episodes[i]];
      FlatMapAppend(episodes[..i], [episodes[i]], EdgeTriples);
      FlatMapSingle(episodes[i], EdgeTriples);
      var episode := episodes[i];
      match Get(episode, "node") {
        case Some(node) =>
          results := results + [TripleOf(node)];
        case None =>
      }
      i := i + 1;
    }
    assert episodes[..i] == episodes;
  }
}
