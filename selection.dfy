/** The checks and the interactive season/episode dialogue of the `imdb` and `play`
    commands. A reply that never arrives within the wait is `None`. */
module Selection {
  import opened Wrappers
  import opened Text

  // ---------------------------------------------------------------------------
  // IMDB ids

  /** The id check of the `imdb` and `play` arms: a `tt` prefix and at least three bytes.
      Both characters of the prefix are ASCII, so byte length and character length agree
      on whether a third character follows. */
  predicate IsValidImdbId(id: string) {
    StartsWith(id, "tt") && |id| >= 3
  }

  /** An id is accepted exactly when it is `tt` followed by something. */
  lemma ImdbIdShape(id: string)
    ensures IsValidImdbId(id) <==> exists rest: string :: rest != [] && id == "tt" + rest
  {
    if IsValidImdbId(id) {
      assert id == "tt" + id[2..];
    }
    if exists rest: string :: rest != [] && id == "tt" + rest {
      var rest: string :| rest != [] && id == "tt" + rest;
      assert id[..2] == "tt";
    }
  }

  // ---------------------------------------------------------------------------
  // Replies

  datatype Choice = TimedOut | Rejected | Chosen(n: nat)

  /** A reply is parsed as a `u32` and accepted only when it equals one of the listed
      numbers; it is not compared with a range. */
  function ReplyChoice(reply: Option<string>, numbers: seq<nat>): (c: Choice)
    ensures c.TimedOut? <==> reply.None?
    ensures c.Chosen? ==> c.n in numbers && c.n < U32_LIMIT
    ensures c.Chosen? ==> ParseUnsigned(reply.value, U32_LIMIT) == Some(c.n)
    ensures c.Rejected? ==> (ParseUnsigned(reply.value, U32_LIMIT).None?
                             || ParseUnsigned(reply.value, U32_LIMIT).value !in numbers)
  {
    match reply
    case None => TimedOut
    case Some(text) =>
      match ParseUnsigned(text, U32_LIMIT)
      case Some(n) => if n in numbers then Chosen(n) else Rejected
      case None => Rejected
  }

  /** Every listed number is accepted when typed the way it is displayed. */
  lemma ReplyAcceptsListed(n: nat, numbers: seq<nat>)
    requires n in numbers && n < U32_LIMIT
    ensures ReplyChoice(Some(NatToString(n)), numbers) == Chosen(n)
  {
    ParseNatToString(n, U32_LIMIT);
  }

  /** Membership, not range: with seasons 1, 3 and 5 listed, `2` is refused though it lies
      between them, and `3` is taken. */
  lemma ReplyIsMembershipNotRange()
    ensures ReplyChoice(Some("2"), [1, 3, 5]) == Rejected
    ensures ReplyChoice(Some("3"), [1, 3, 5]) == Chosen(3)
  {
    assert ParseUnsigned("2", U32_LIMIT) == Some(2);
    assert ParseUnsigned("3", U32_LIMIT) == Some(3);
  }

  // ---------------------------------------------------------------------------
  // TMDB records the dialogue reads

  /** `TmdbTvDetails`, with each season reduced to its `season_number`. */
  datatype TvDetails = TvDetails(name: string, numberOfSeasons: nat, seasonNumbers: seq<nat>)

  /** `TmdbEpisode` */
  datatype Episode = Episode(episodeNumber: nat, name: string)

  /** `TmdbSeasonDetails` */
  datatype SeasonDetails = SeasonDetails(episodes: seq<Episode>)

  function EpisodeNumbers(episodes: seq<Episode>): (r: seq<nat>)
    ensures |r| == |episodes|
    ensures forall i :: 0 <= i < |episodes| ==> r[i] == episodes[i].episodeNumber
  {
    if episodes == [] then [] else [episodes[0].episodeNumber] + EpisodeNumbers(episodes[1..])
  }

  // ---------------------------------------------------------------------------
  // Prompts

  /** `pieces.join(sep)` */
  function JoinWith(pieces: seq<string>, sep: string): string {
    if pieces == [] then []
    else if |pieces| == 1 then pieces[0]
    else pieces[0] + sep + JoinWith(pieces[1..], sep)
  }

  function NumberList(numbers: seq<nat>): (r: seq<string>)
    ensures |r| == |numbers|
    ensures forall i :: 0 <= i < |numbers| ==> r[i] == NatToString(numbers[i])
  {
    if numbers == [] then [] else [NatToString(numbers[0])] + NumberList(numbers[1..])
  }

  function SeasonPrompt(tv: TvDetails): string {
    "Found TV Show: " + tv.name + ". It has " + NatToString(tv.numberOfSeasons)
      + " seasons.\nAvailable seasons: " + JoinWith(NumberList(tv.seasonNumbers), ", ")
      + ".\nPlease reply with the season number (e.g., '1') you want to watch."
  }

  function EpisodeLine(ep: Episode): string {
    NatToString(ep.episodeNumber) + ". " + ep.name + "\n"
  }

  /** The lines for the first `n` episodes. */
  function EpisodeLines(episodes: seq<Episode>, n: nat): string
    requires n <= |episodes|
  {
    if n == 0 then [] else EpisodeLines(episodes, n - 1) + EpisodeLine(episodes[n - 1])
  }

  /** The number of episodes listed: at most ten. */
  function Shown(episodes: seq<Episode>): (n: nat)
    ensures n <= 10 && n <= |episodes|
    ensures n == 10 || n == |episodes|
  {
    if |episodes| < 10 then |episodes| else 10
  }

  /** The hint names the last episode's number, or 0 for an empty season. */
  function LastEpisodeNumber(episodes: seq<Episode>): nat {
    if episodes == [] then 0 else episodes[|episodes| - 1].episodeNumber
  }

  function EpisodeHeader(season: nat): string {
    "Season " + NatToString(season) + ". Episodes (up to 10 shown):\n"
  }

  function Ellipsis(episodes: seq<Episode>): string {
    if |episodes| > 10 then "...\n" else ""
  }

  function EpisodeHint(episodes: seq<Episode>): string {
    "Please reply with the episode number (1-" + NatToString(LastEpisodeNumber(episodes)) + ")."
  }

  /** The episode prompt as a whole. */
  function EpisodePromptText(season: nat, episodes: seq<Episode>): string {
    EpisodeHeader(season) + EpisodeLines(episodes, Shown(episodes)) + Ellipsis(episodes)
      + EpisodeHint(episodes)
  }

  /** The prompt built with `push_str`: a line per episode of the first ten, `...` when
      more follow, and the hint. */
  method EpisodePrompt(season: nat, episodes: seq<Episode>) returns (msg: string)
    ensures msg == EpisodePromptText(season, episodes)
  {
    msg := EpisodeHeader(season);
    var n := Shown(episodes);
    var i := 0;
    while i < n
      invariant 0 <= i <= n
      invariant msg == EpisodeHeader(season) + EpisodeLines(episodes, i)
    {
      var line := EpisodeLine(episodes[i]);
      assert EpisodeLines(episodes, i + 1) == EpisodeLines(episodes, i) + line;
      msg := msg + line;
      i := i + 1;
    }
    if |episodes| > 10 {
      msg := msg + "...\n";
    }
    msg := msg + EpisodeHint(episodes);
  }

  lemma {:induction false} EpisodeLinesPrefix(a: seq<Episode>, b: seq<Episode>, n: nat)
    requires n <= |a| && n <= |b| && a[..n] == b[..n]
    ensures EpisodeLines(a, n) == EpisodeLines(b, n)
  {
    if n > 0 {
      assert a[n - 1] == a[..n][n - 1] == b[..n][n - 1] == b[n - 1];
      assert a[..n - 1] == a[..n][..n - 1];
      assert b[..n - 1] == b[..n][..n - 1];
      EpisodeLinesPrefix(a, b, n - 1);
    }
  }

  /** The prompt depends on nothing but the first ten episodes, whether there are more
      than ten, and the number of the last one: any two seasons that agree on those get
      the same prompt. */
  lemma EpisodePromptDependsOnFirstTen(season: nat, a: seq<Episode>, b: seq<Episode>)
    requires Shown(a) == Shown(b) && a[..Shown(a)] == b[..Shown(b)]
    requires (|a| > 10) == (|b| > 10)
    requires LastEpisodeNumber(a) == LastEpisodeNumber(b)
    ensures EpisodePromptText(season, a) == EpisodePromptText(season, b)
  {
    EpisodeLinesPrefix(a, b, Shown(a));
  }

  // ---------------------------------------------------------------------------
  // The dialogue

  datatype Outcome =
    | NoSeasons
    | SeasonTimedOut
    | SeasonRejected
    | SeasonFetchFailed
    | NoEpisodes(season: nat)
    | EpisodeTimedOut
    | EpisodeRejected
    | Selected(season: nat, episode: nat)

  /** The outcome of the dialogue and the messages the bot posts during it, in order. */
  datatype Dialogue = Dialogue(outcome: Outcome, messages: seq<string>)

  const NoSeasonInTime: string := "No season selected in time."
  const BadSeason: string := "Invalid season number or selection timed out."
  const SeasonFetchError: string := "Could not fetch season episodes from TMDB."
  const NoEpisodeInTime: string := "No episode selected in time."
  const BadEpisode: string := "Invalid episode number or selection timed out."

  function NoSeasonsText(tv: TvDetails): string {
    "TV Show: " + tv.name + " has no seasons listed on TMDB."
  }

  function NoEpisodesText(tv: TvDetails, season: nat): string {
    "Season " + NatToString(season) + " of " + tv.name + " has no episodes listed on TMDB."
  }

  /** The TV branch of `play`: `fetchSeason(s)` is TMDB's answer for season `s`, `None`
      when the request fails. */
  function SelectEpisode(tv: TvDetails, seasonReply: Option<string>,
                         fetchSeason: nat -> Option<SeasonDetails>,
                         episodeReply: Option<string>): (d: Dialogue)
    ensures d.outcome.NoSeasons? <==> tv.seasonNumbers == [] || tv.numberOfSeasons == 0
    ensures d.outcome.NoSeasons? ==> d.messages == [NoSeasonsText(tv)]
    ensures !d.outcome.NoSeasons? ==> |d.messages| >= 2 && d.messages[0] == SeasonPrompt(tv)
  {
    if tv.seasonNumbers == [] || tv.numberOfSeasons == 0 then
      Dialogue(NoSeasons, [NoSeasonsText(tv)])
    else
      var first := SeasonPrompt(tv);
      match ReplyChoice(seasonReply, tv.seasonNumbers)
      case TimedOut => Dialogue(SeasonTimedOut, [first, NoSeasonInTime])
      case Rejected => Dialogue(SeasonRejected, [first, BadSeason])
      case Chosen(s) =>
        match fetchSeason(s)
        case None => Dialogue(SeasonFetchFailed, [first, SeasonFetchError])
        case Some(details) =>
          if details.episodes == [] then
            Dialogue(NoEpisodes(s), [first, NoEpisodesText(tv, s)])
          else
            var second := EpisodePromptText(s, details.episodes);
            match ReplyChoice(episodeReply, EpisodeNumbers(details.episodes))
            case TimedOut => Dialogue(EpisodeTimedOut, [first, second, NoEpisodeInTime])
            case Rejected => Dialogue(EpisodeRejected, [first, second, BadEpisode])
            case Chosen(e) => Dialogue(Selected(s, e), [first, second])
  }

  /** The dialogue selects season `s` and episode `e` exactly when `s` is a listed season
      that was typed as a `u32`, its episodes could be fetched and are not empty, and `e`
      is the number of one of them (not only of the ten shown), typed as a `u32`. */
  lemma SelectedIff(tv: TvDetails, seasonReply: Option<string>,
                    fetchSeason: nat -> Option<SeasonDetails>,
                    episodeReply: Option<string>, s: nat, e: nat)
    ensures SelectEpisode(tv, seasonReply, fetchSeason, episodeReply).outcome == Selected(s, e)
      <==>
      && tv.seasonNumbers != [] && tv.numberOfSeasons != 0
      && seasonReply.Some? && ParseUnsigned(seasonReply.value, U32_LIMIT) == Some(s)
      && s in tv.seasonNumbers
      && fetchSeason(s).Some? && fetchSeason(s).value.episodes != []
      && episodeReply.Some? && ParseUnsigned(episodeReply.value, U32_LIMIT) == Some(e)
      && e in EpisodeNumbers(fetchSeason(s).value.episodes)
  {
  }

  /** A missing season reply ends the dialogue at once: the prompt and the timeout notice
      are the only messages, and the episode reply is never looked at. */
  lemma SeasonTimeoutEnds(tv: TvDetails, fetchSeason: nat -> Option<SeasonDetails>,
                          r1: Option<string>, r2: Option<string>)
    requires tv.seasonNumbers != [] && tv.numberOfSeasons != 0
    ensures SelectEpisode(tv, None, fetchSeason, r1)
         == SelectEpisode(tv, None, fetchSeason, r2)
         == Dialogue(SeasonTimedOut, [SeasonPrompt(tv), NoSeasonInTime])
  {
  }

  /** A season without episodes ends the dialogue before any episode prompt. */
  lemma EmptySeasonEnds(tv: TvDetails, seasonReply: Option<string>,
                        fetchSeason: nat -> Option<SeasonDetails>, episodeReply: Option<string>)
    requires tv.seasonNumbers != [] && tv.numberOfSeasons != 0
    requires seasonReply.Some?
    requires ParseUnsigned(seasonReply.value, U32_LIMIT).Some?
    requires ParseUnsigned(seasonReply.value, U32_LIMIT).value in tv.seasonNumbers
    requires fetchSeason(ParseUnsigned(seasonReply.value, U32_LIMIT).value) == Some(SeasonDetails([]))
    ensures var s := ParseUnsigned(seasonReply.value, U32_LIMIT).value;
      SelectEpisode(tv, seasonReply, fetchSeason, episodeReply)
      == Dialogue(NoEpisodes(s), [SeasonPrompt(tv), NoEpisodesText(tv, s)])
  {
  }
}
