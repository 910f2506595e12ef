/** TMDB records as the bot decodes them, the choice `find_by_imdb_id` makes between its
    two result lists, and the text the `search`, `imdb` and `play` commands render from a
    record. */
module Catalog {
  import opened Wrappers
  import opened Text
  import opened Seqs

  /** `SearchResultItem`: `media_type` defaults to the empty string when absent. */
  datatype SearchResultItem = SearchResultItem(
    id: int,
    title: Option<string>,
    name: Option<string>,
    mediaType: string,
    overview: Option<string>,
    releaseDate: Option<string>,
    firstAirDate: Option<string>)

  /** `TmdbFindResponse` */
  datatype FindResponse = FindResponse(movieResults: seq<SearchResultItem>,
                                       tvResults: seq<SearchResultItem>)

  /** The choice in `find_by_imdb_id`: the first movie result tagged `movie`, else the
      first TV result tagged `tv`, else nothing. */
  function ChooseFound(resp: FindResponse): (r: Option<SearchResultItem>)
    ensures r.None? <==> resp.movieResults == [] && resp.tvResults == []
  {
    if resp.movieResults != [] then Some(resp.movieResults[0].(mediaType := "movie"))
    else if resp.tvResults != [] then Some(resp.tvResults[0].(mediaType := "tv"))
    else None
  }

  /** The chosen record is a first entry of one of the lists with only its tag rewritten,
      and the tag says which list: `tv` only when there is no movie result at all. */
  lemma ChooseFoundTagsBucket(resp: FindResponse)
    requires ChooseFound(resp).Some?
    ensures var item := ChooseFound(resp).value;
      && (item.mediaType == "movie" || item.mediaType == "tv")
      && (item.mediaType == "movie" <==> resp.movieResults != [])
      && (item.mediaType == "movie" ==> item == resp.movieResults[0].(mediaType := "movie"))
      && (item.mediaType == "tv" ==> item == resp.tvResults[0].(mediaType := "tv"))
  {
  }

  /** `title`, else `name`, else `N/A`. */
  function DisplayTitle(item: SearchResultItem): string {
    item.title.Or(item.name).GetOr("N/A")
  }

  /** The text before the first `-` of `release_date`, else of `first_air_date`, else `N/A`.
      A date that is present but empty gives the empty year. */
  function DisplayYear(item: SearchResultItem): string {
    match item.releaseDate.Or(item.firstAirDate)
    case Some(date) => Split(date, '-')[0]
    case None => "N/A"
  }

  /** The year shown is the leading part of the date up to its first `-`. */
  lemma DisplayYearIsDatePrefix(item: SearchResultItem)
    requires item.releaseDate.Or(item.firstAirDate).Some?
    ensures var date := item.releaseDate.Or(item.firstAirDate).value;
      var year := DisplayYear(item);
      && StartsWith(date, year)
      && (forall k :: 0 <= k < |year| ==> year[k] != '-')
      && (|year| < |date| ==> date[|year|] == '-')
  {
    var date := item.releaseDate.Or(item.firstAirDate).value;
    var parts := Split(date, '-');
    JoinSplit(date, '-');
    SplitPiecesFree(date, '-');
    assert parts[0] in parts;
    if |parts| > 1 {
      assert Join(parts, '-') == parts[0] + ['-'] + Join(parts[1..], '-');
      assert date[..|parts[0]|] == parts[0];
    }
  }

  /** `Movie`, `TV Show`, or the raw media type. */
  function KindLabel(mediaType: string): string {
    if mediaType == "movie" then "Movie" else if mediaType == "tv" then "TV Show" else mediaType
  }

  /** Line `i` (from 0) of the search reply. */
  function SearchLine(i: nat, item: SearchResultItem): string {
    NatToString(i + 1) + ". " + KindLabel(item.mediaType) + ": " + DisplayTitle(item)
      + " (" + DisplayYear(item) + ")\n"
  }

  /** The lines for the first `n` results. */
  function SearchLines(results: seq<SearchResultItem>, n: nat): string
    requires n <= |results|
  {
    if n == 0 then [] else SearchLines(results, n - 1) + SearchLine(n - 1, results[n - 1])
  }

  const SearchHeader: string := "Search Results (Top 5):\n"
  const NoResults: string := "No results found for your query."

  /** The reply to `search` once TMDB answered. */
  function SearchReplyText(results: seq<SearchResultItem>): string {
    if results == [] then NoResults
    else SearchHeader + SearchLines(results, if |results| < 5 then |results| else 5)
  }

  /** The `search` arm's reply, built line by line with `push_str` over at most the first
      five results. */
  method SearchReply(results: seq<SearchResultItem>) returns (msg: string)
    ensures msg == SearchReplyText(results)
  {
    if results == [] {
      return NoResults;
    }
    msg := SearchHeader;
    var limit := if |results| < 5 then |results| else 5;
    var i := 0;
    while i < limit
      invariant 0 <= i <= limit
      invariant msg == SearchHeader + SearchLines(results, i)
    {
      var line := SearchLine(i, results[i]);
      assert SearchLines(results, i + 1) == SearchLines(results, i) + line;
      AppendAssoc(SearchHeader, SearchLines(results, i), line);
      msg := msg + line;
      i := i + 1;
    }
  }

  /** Only the first `n` results are looked at. */
  lemma {:induction false} SearchLinesPrefix(results: seq<SearchResultItem>, other: seq<SearchResultItem>, n: nat)
    requires n <= |results| && n <= |other| && results[..n] == other[..n]
    ensures SearchLines(results, n) == SearchLines(other, n)
  {
    if n > 0 {
      assert results[n - 1] == results[..n][n - 1] == other[..n][n - 1] == other[n - 1];
      assert results[..n - 1] == results[..n][..n - 1];
      assert other[..n - 1] == other[..n][..n - 1];
      SearchLinesPrefix(results, other, n - 1);
    }
  }

  /** The reply shows the top five: results past the fifth never change it. */
  lemma SearchReplyTopFive(results: seq<SearchResultItem>)
    requires |results| >= 5
    ensures SearchReplyText(results) == SearchReplyText(results[..5])
  {
    SearchLinesPrefix(results, results[..5], 5);
  }

  /** A date `YYYY-MM-DD` shows as its year. */
  lemma DisplayYearOfDate(item: SearchResultItem, year: string, rest: string)
    requires item.releaseDate.Or(item.firstAirDate) == Some(year + "-" + rest)
    requires forall k :: 0 <= k < |year| ==> year[k] != '-'
    ensures DisplayYear(item) == year
  {
    SplitAround(year, '-', rest);
  }

  /** The message the `imdb` command posts for a resolved record. */
  function ImdbDetailText(item: SearchResultItem): string {
    "**" + KindLabel(item.mediaType) + "**: " + DisplayTitle(item) + " (" + DisplayYear(item)
      + ")\n**Overview**: " + item.overview.GetOr("No overview available.")
  }

  /** The now-playing title: `{name} S{s}E{e} (IMDB: {id})` for TV, with a missing choice
      shown as 0, and `{title} (IMDB: {id})` otherwise. */
  function PlayTitle(item: SearchResultItem, imdbId: string,
                     season: Option<nat>, episode: Option<nat>): (t: string)
    ensures item.mediaType == "tv" ==>
      t == item.name.GetOr("Unknown TV Show") + " S" + NatToString(season.GetOr(0)) + "E"
           + NatToString(episode.GetOr(0)) + " (IMDB: " + imdbId + ")"
    ensures item.mediaType != "tv" ==>
      t == item.title.GetOr("Unknown Movie") + " (IMDB: " + imdbId + ")"
  {
    var suffix := " (IMDB: " + imdbId + ")";
    if item.mediaType == "tv" then
      item.name.GetOr("Unknown TV Show") + " S" + NatToString(season.GetOr(0)) + "E"
        + NatToString(episode.GetOr(0)) + suffix
    else item.title.GetOr("Unknown Movie") + suffix
  }

  /** Every play title ends with the IMDB id in parentheses. */
  lemma PlayTitleEndsWithId(item: SearchResultItem, imdbId: string,
                            season: Option<nat>, episode: Option<nat>)
    ensures var t := PlayTitle(item, imdbId, season, episode);
      var suffix := " (IMDB: " + imdbId + ")";
      |suffix| <= |t| && t[|t| - |suffix|..] == suffix
  {
    var t := PlayTitle(item, imdbId, season, episode);
    var suffix := " (IMDB: " + imdbId + ")";
    var head := t[..|t| - |suffix|];
    if item.mediaType == "tv" {
      head := item.name.GetOr("Unknown TV Show") + " S" + NatToString(season.GetOr(0)) + "E"
              + NatToString(episode.GetOr(0));
    } else {
      head := item.title.GetOr("Unknown Movie");
    }
    assert t == head + suffix;
  }

  /** A show's title, cut into the show's name, the two numbers with the `E` between
      them, and the id suffix. */
  lemma TvTitleParts(item: SearchResultItem, imdbId: string, season: Option<nat>,
                     episode: Option<nat>)
    requires item.mediaType == "tv"
    ensures PlayTitle(item, imdbId, season, episode)
            == (item.name.GetOr("Unknown TV Show") + " S")
               + (NatToString(season.GetOr(0)) + ['E'] + NatToString(episode.GetOr(0)))
               + (" (IMDB: " + imdbId + ")")
  {
  }

  /** A show's title tells its episodes apart: two titles of the same show and id are
      equal exactly when they name the same season and episode (a missing one shown as 0).
      Any other title does not depend on the season or episode at all. */
  lemma PlayTitleNamesEpisode(item: SearchResultItem, imdbId: string,
                              s1: Option<nat>, e1: Option<nat>, s2: Option<nat>, e2: Option<nat>)
    ensures item.mediaType == "tv" ==>
      var t1, t2 := PlayTitle(item, imdbId, s1, e1), PlayTitle(item, imdbId, s2, e2);
      (t1 == t2 <==> s1.GetOr(0) == s2.GetOr(0) && e1.GetOr(0) == e2.GetOr(0))
    ensures item.mediaType != "tv" ==>
      PlayTitle(item, imdbId, s1, e1) == PlayTitle(item, imdbId, s2, e2)
  {
    if item.mediaType == "tv" && PlayTitle(item, imdbId, s1, e1) == PlayTitle(item, imdbId, s2, e2) {
      var a1, b1 := NatToString(s1.GetOr(0)), NatToString(e1.GetOr(0));
      var a2, b2 := NatToString(s2.GetOr(0)), NatToString(e2.GetOr(0));
      TvTitleParts(item, imdbId, s1, e1);
      TvTitleParts(item, imdbId, s2, e2);
      CancelFrame(item.name.GetOr("Unknown TV Show") + " S", a1 + ['E'] + b1, a2 + ['E'] + b2,
                  " (IMDB: " + imdbId + ")");
      DigitsThenMark(a1, b1, a2, b2, 'E');
      NatToStringInjective(s1.GetOr(0), s2.GetOr(0));
      NatToStringInjective(e1.GetOr(0), e2.GetOr(0));
    }
  }
}
