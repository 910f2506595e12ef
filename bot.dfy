/** The command arms of the Discord handler that carry logic: `search`, `imdb`, `play`,
    `stop` and `playing`, and the one piece of state they share, the title of what is
    playing. Everything the arms obtain from outside (the TMDB key, TMDB's answers, the
    user's replies, page fetches, the voice connection) comes in as a parameter. */
module Bot {
  import opened Wrappers
  import opened Text
  import opened Catalog
  import opened Selection
  import Vidsrc
  import Http

  const KeyNotConfigured: string :=
    "TMDB API key not configured. Please contact the bot administrator."
  const KeyEmpty: string :=
    "TMDB API key is configured but empty. Please contact the bot administrator."
  const InvalidImdbId: string := "Invalid IMDB ID format. It should start with 'tt'."
  const NoMedia: string := "No media found for that IMDB ID."

  // ---------------------------------------------------------------------------
  // search

  /** The `search` arm. `arg` is the text after the command word, `apiKey` the
      `TMDB_API_KEY` variable if set, and `results` what TMDB returned for the trimmed
      query (`None` when the request failed). */
  method SearchCommand(arg: string, apiKey: Option<string>,
                       results: Option<seq<SearchResultItem>>) returns (reply: string)
    ensures Trim(arg) == [] ==> reply == "Please enter a search query."
    ensures Trim(arg) != [] && apiKey.None? ==> reply == KeyNotConfigured
    ensures Trim(arg) != [] && apiKey == Some("") ==> reply == KeyEmpty
    ensures Trim(arg) != [] && apiKey.Some? && apiKey.value != [] ==>
      reply == if results.None? then "Error searching TMDB. Please try again later."
               else SearchReplyText(results.value)
  {
    if Trim(arg) == [] {
      return "Please enter a search query.";
    }
    if apiKey.None? {
      return KeyNotConfigured;
    }
    if apiKey.value == [] {
      return KeyEmpty;
    }
    if results.None? {
      return "Error searching TMDB. Please try again later.";
    }
    reply := SearchReply(results.value);
  }

  // ---------------------------------------------------------------------------
  // imdb

  /** The reply of the `imdb` arm; `find` is TMDB's answer for the trimmed id. */
  function ImdbReply(arg: string, apiKey: Option<string>, find: Option<FindResponse>): string {
    var id := Trim(arg);
    if !IsValidImdbId(id) then InvalidImdbId
    else if apiKey.None? then KeyNotConfigured
    else if apiKey.value == [] then KeyEmpty
    else if find.None? then "Error fetching details from TMDB. Please try again later."
    else match ChooseFound(find.value)
      case None => NoMedia
      case Some(item) => ImdbDetailText(item)
  }

  /** A malformed id is refused before the key or TMDB is consulted. */
  lemma ImdbRejectsBeforeLookup(arg: string, k1: Option<string>, k2: Option<string>,
                                f1: Option<FindResponse>, f2: Option<FindResponse>)
    requires !IsValidImdbId(Trim(arg))
    ensures ImdbReply(arg, k1, f1) == ImdbReply(arg, k2, f2) == InvalidImdbId
  {
  }

  /** A well-formed id with a usable key shows the details of the record `find_by_imdb_id`
      chose, and says so when it chose none. */
  lemma ImdbShowsChosen(arg: string, key: string, find: FindResponse)
    requires IsValidImdbId(Trim(arg)) && key != []
    ensures ChooseFound(find).Some? ==>
      ImdbReply(arg, Some(key), Some(find)) == ImdbDetailText(ChooseFound(find).value)
    ensures ChooseFound(find).None? ==> ImdbReply(arg, Some(key), Some(find)) == NoMedia
  {
  }

  // ---------------------------------------------------------------------------
  // The voice connection as `play` finds it

  /** Whether the bot already had a call in the guild, or what joining the author's
      channel gave. */
  datatype VoiceJoin = Connected | JoinedNow(channelId: nat) | JoinFailed | NoUserChannel

  /** What `play` found to stream: the TMDB record and, for a show, the chosen season and
      episode. */
  datatype Media = Media(item: SearchResultItem, season: Option<nat>, episode: Option<nat>)

  const JoinFailedText: string := "Failed to join your voice channel."
  const NotInVoice: string :=
    "You are not in a voice channel. Please join one or use `m!join` first."
  const PlayKeyMissing: string := "TMDB API key not configured or empty."
  const MediaFetchError: string := "Error fetching media details."
  const TvDetailsError: string := "Could not fetch TV show details from TMDB."

  /** The bot has a call in the guild, found or just made. */
  predicate VoiceReady(voice: VoiceJoin) {
    voice.Connected? || voice.JoinedNow?
  }

  /** `TMDB_API_KEY` is set and not empty. */
  predicate KeyUsable(apiKey: Option<string>) {
    apiKey.Some? && apiKey.value != []
  }

  /** What joining posts when it succeeded: a notice for a fresh join, nothing otherwise. */
  function Greeting(voice: VoiceJoin): seq<string> {
    if voice.JoinedNow? then ["Joined your voice channel: <#" + NatToString(voice.channelId) + ">"]
    else []
  }

  /** The id is well formed, the bot is in a call, the key is usable and TMDB's lookup
      answered with a record. */
  predicate RecordFound(arg: string, voice: VoiceJoin, apiKey: Option<string>,
                        find: Option<FindResponse>) {
    && IsValidImdbId(Trim(arg)) && VoiceReady(voice) && KeyUsable(apiKey)
    && find.Some? && ChooseFound(find.value).Some?
  }

  /** The media a found record gives: a movie as it is, a show with the season and
      episode its dialogue selected, nothing for a show whose details are missing, a
      dialogue that selected nothing, or any other type. */
  function RecordMedia(item: SearchResultItem, tv: Option<TvDetails>,
                       seasonReply: Option<string>, fetchSeason: nat -> Option<SeasonDetails>,
                       episodeReply: Option<string>): Option<Media>
  {
    if item.mediaType == "movie" then Some(Media(item, None, None))
    else if item.mediaType != "tv" || tv.None? then None
    else
      var d := SelectEpisode(tv.value, seasonReply, fetchSeason, episodeReply);
      if d.outcome.Selected? then Some(Media(item, Some(d.outcome.season), Some(d.outcome.episode)))
      else None
  }

  /** The media `play` goes on to stream, nothing when a step before the stream lookup
      failed. */
  function ChosenMedia(arg: string, voice: VoiceJoin, apiKey: Option<string>,
                       find: Option<FindResponse>, tv: Option<TvDetails>,
                       seasonReply: Option<string>, fetchSeason: nat -> Option<SeasonDetails>,
                       episodeReply: Option<string>): Option<Media>
  {
    if !IsValidImdbId(Trim(arg)) || !VoiceReady(voice) then None
    else LookupMedia(apiKey, find, tv, seasonReply, fetchSeason, episodeReply)
  }

  /** The media from the key check on. */
  function LookupMedia(apiKey: Option<string>, find: Option<FindResponse>, tv: Option<TvDetails>,
                       seasonReply: Option<string>, fetchSeason: nat -> Option<SeasonDetails>,
                       episodeReply: Option<string>): Option<Media>
  {
    if !KeyUsable(apiKey) || find.None? || ChooseFound(find.value).None? then None
    else RecordMedia(ChooseFound(find.value).value, tv, seasonReply, fetchSeason, episodeReply)
  }

  /** The messages of the record stage: the TV-details error or the selection dialogue
      for a show, nothing for a movie, the unsupported-type notice otherwise. */
  function RecordMessages(item: SearchResultItem, tv: Option<TvDetails>,
                          seasonReply: Option<string>, fetchSeason: nat -> Option<SeasonDetails>,
                          episodeReply: Option<string>): seq<string>
  {
    if item.mediaType == "tv" then
      if tv.None? then [TvDetailsError]
      else SelectEpisode(tv.value, seasonReply, fetchSeason, episodeReply).messages
    else if item.mediaType == "movie" then []
    else ["Unsupported media type: " + item.mediaType]
  }

  /** The messages `play` posts up to the stream lookup, stage by stage. */
  function ChooseMessages(arg: string, voice: VoiceJoin, apiKey: Option<string>,
                          find: Option<FindResponse>, tv: Option<TvDetails>,
                          seasonReply: Option<string>, fetchSeason: nat -> Option<SeasonDetails>,
                          episodeReply: Option<string>): seq<string>
  {
    if !IsValidImdbId(Trim(arg)) then [InvalidImdbId]
    else if voice.JoinFailed? then [JoinFailedText]
    else if voice.NoUserChannel? then [NotInVoice]
    else Greeting(voice) + LookupMessages(apiKey, find, tv, seasonReply, fetchSeason, episodeReply)
  }

  /** The messages from the key check on. */
  function LookupMessages(apiKey: Option<string>, find: Option<FindResponse>, tv: Option<TvDetails>,
                          seasonReply: Option<string>, fetchSeason: nat -> Option<SeasonDetails>,
                          episodeReply: Option<string>): seq<string>
  {
    if !KeyUsable(apiKey) then [PlayKeyMissing]
    else if find.None? then [MediaFetchError]
    else if ChooseFound(find.value).None? then [NoMedia]
    else RecordMessages(ChooseFound(find.value).value, tv, seasonReply, fetchSeason, episodeReply)
  }

  /** A found record gives media exactly when it is a movie, or a show whose details
      arrived and whose dialogue selected an episode. A movie carries no season or
      episode, a show the selected ones. */
  lemma RecordMediaIff(item: SearchResultItem, tv: Option<TvDetails>,
                       seasonReply: Option<string>, fetchSeason: nat -> Option<SeasonDetails>,
                       episodeReply: Option<string>)
    ensures var media := RecordMedia(item, tv, seasonReply, fetchSeason, episodeReply);
      && (media.Some? <==>
            || item.mediaType == "movie"
            || (&& item.mediaType == "tv" && tv.Some?
                && SelectEpisode(tv.value, seasonReply, fetchSeason, episodeReply).outcome.Selected?))
      && (media.Some? ==>
            && media.value.item == item
            && (item.mediaType == "movie" ==> media.value.season.None? && media.value.episode.None?)
            && (item.mediaType != "movie" ==>
                  && item.mediaType == "tv" && tv.Some?
                  && var d := SelectEpisode(tv.value, seasonReply, fetchSeason, episodeReply);
                     && media.value.season == Some(d.outcome.season)
                     && media.value.episode == Some(d.outcome.episode)))
  {
  }

  /** Media is chosen exactly when the record was found and gives media, and then it is
      that record's. */
  lemma ChosenMediaIff(arg: string, voice: VoiceJoin, apiKey: Option<string>,
                       find: Option<FindResponse>, tv: Option<TvDetails>,
                       seasonReply: Option<string>, fetchSeason: nat -> Option<SeasonDetails>,
                       episodeReply: Option<string>)
    ensures var media := ChosenMedia(arg, voice, apiKey, find, tv, seasonReply, fetchSeason,
                                     episodeReply);
      && (media.Some? <==>
            RecordFound(arg, voice, apiKey, find)
            && RecordMedia(ChooseFound(find.value).value, tv, seasonReply, fetchSeason,
                           episodeReply).Some?)
      && (media.Some? ==>
            media == RecordMedia(ChooseFound(find.value).value, tv, seasonReply, fetchSeason,
                                 episodeReply))
  {
  }

  /** Each failing stage ends the messages with its own notice; a fresh join is announced
      first, and a show's dialogue messages follow the lookup. */
  lemma ChooseMessagesPaths(arg: string, voice: VoiceJoin, apiKey: Option<string>,
                            find: Option<FindResponse>, tv: Option<TvDetails>,
                            seasonReply: Option<string>, fetchSeason: nat -> Option<SeasonDetails>,
                            episodeReply: Option<string>)
    ensures var msgs := ChooseMessages(arg, voice, apiKey, find, tv, seasonReply, fetchSeason,
                                       episodeReply);
      && (!IsValidImdbId(Trim(arg)) ==> msgs == [InvalidImdbId])
      && (IsValidImdbId(Trim(arg)) && voice.JoinFailed? ==> msgs == [JoinFailedText])
      && (IsValidImdbId(Trim(arg)) && voice.NoUserChannel? ==> msgs == [NotInVoice])
      && (IsValidImdbId(Trim(arg)) && VoiceReady(voice) && !KeyUsable(apiKey) ==>
            msgs == Greeting(voice) + [PlayKeyMissing])
      && (IsValidImdbId(Trim(arg)) && VoiceReady(voice) && KeyUsable(apiKey) && find.None? ==>
            msgs == Greeting(voice) + [MediaFetchError])
      && (IsValidImdbId(Trim(arg)) && VoiceReady(voice) && KeyUsable(apiKey) && find.Some?
          && ChooseFound(find.value).None? ==>
            msgs == Greeting(voice) + [NoMedia])
      && (RecordFound(arg, voice, apiKey, find) ==>
            var item := ChooseFound(find.value).value;
            && (item.mediaType == "movie" ==> msgs == Greeting(voice))
            && (item.mediaType == "tv" && tv.None? ==> msgs == Greeting(voice) + [TvDetailsError])
            && (item.mediaType == "tv" && tv.Some? ==>
                  msgs == Greeting(voice)
                          + SelectEpisode(tv.value, seasonReply, fetchSeason, episodeReply).messages)
            && (item.mediaType != "movie" && item.mediaType != "tv" ==>
                  msgs == Greeting(voice) + ["Unsupported media type: " + item.mediaType]))
  {
  }

  /** The `play` arm from the id check up to the stream lookup: the voice connection, the
      TMDB key and lookup, and for a show the season and episode dialogue. It returns the
      messages posted so far and, when every step succeeded, the media to stream. */
  method ChooseMedia(arg: string, voice: VoiceJoin, apiKey: Option<string>,
                     find: Option<FindResponse>, tv: Option<TvDetails>,
                     seasonReply: Option<string>, fetchSeason: nat -> Option<SeasonDetails>,
                     episodeReply: Option<string>)
    returns (messages: seq<string>, media: Option<Media>)
    ensures media == ChosenMedia(arg, voice, apiKey, find, tv, seasonReply, fetchSeason, episodeReply)
    ensures messages == ChooseMessages(arg, voice, apiKey, find, tv, seasonReply, fetchSeason,
                                       episodeReply)
  {
    if !IsValidImdbId(Trim(arg)) {
      return [InvalidImdbId], None;
    }
    var greeting, ready := JoinStage(voice);
    if !ready {
      return greeting, None;
    }
    var tail;
    tail, media := LookupStage(apiKey, find, tv, seasonReply, fetchSeason, episodeReply);
    messages := greeting + tail;
  }

  /** The voice stage of `play`: with a call already in the guild nothing is posted; a
      fresh join is announced; a failed join or a user outside any voice channel ends the
      command with its notice. */
  method JoinStage(voice: VoiceJoin) returns (messages: seq<string>, ready: bool)
    ensures ready <==> VoiceReady(voice)
    ensures ready ==> messages == Greeting(voice)
    ensures voice.JoinFailed? ==> messages == [JoinFailedText]
    ensures voice.NoUserChannel? ==> messages == [NotInVoice]
  {
    match voice {
      case Connected =>
        return [], true;
      case JoinedNow(channel) =>
        return ["Joined your voice channel: <#" + NatToString(channel) + ">"], true;
      case JoinFailed =>
        return [JoinFailedText], false;
      case NoUserChannel =>
        return [NotInVoice], false;
    }
  }

  /** The TMDB stage of `play`: the key check, the id lookup and then the record stage. */
  method LookupStage(apiKey: Option<string>, find: Option<FindResponse>, tv: Option<TvDetails>,
                     seasonReply: Option<string>, fetchSeason: nat -> Option<SeasonDetails>,
                     episodeReply: Option<string>)
    returns (messages: seq<string>, media: Option<Media>)
    ensures media == LookupMedia(apiKey, find, tv, seasonReply, fetchSeason, episodeReply)
    ensures messages == LookupMessages(apiKey, find, tv, seasonReply, fetchSeason, episodeReply)
  {
    media := None;
    if apiKey.None? || apiKey.value == [] {
      return [PlayKeyMissing], None;
    }
    if find.None? {
      return [MediaFetchError], None;
    }
    var chosen := ChooseFound(find.value);
    if chosen.None? {
      return [NoMedia], None;
    }
    messages, media := RecordStage(chosen.value, tv, seasonReply, fetchSeason, episodeReply);
  }

  /** The record stage of `play`: the season and episode dialogue for a show, nothing to
      ask for a movie, a refusal for any other type. */
  method RecordStage(item: SearchResultItem, tv: Option<TvDetails>,
                     seasonReply: Option<string>, fetchSeason: nat -> Option<SeasonDetails>,
                     episodeReply: Option<string>)
    returns (messages: seq<string>, media: Option<Media>)
    ensures media == RecordMedia(item, tv, seasonReply, fetchSeason, episodeReply)
    ensures messages == RecordMessages(item, tv, seasonReply, fetchSeason, episodeReply)
  {
    messages := [];
    media := None;
    if item.mediaType == "tv" {
      if tv.None? {
        messages := [TvDetailsError];
        return;
      }
      var d := SelectEpisode(tv.value, seasonReply, fetchSeason, episodeReply);
      messages := d.messages;
      if d.outcome.Selected? {
        media := Some(Media(item, Some(d.outcome.season), Some(d.outcome.episode)));
      }
    } else if item.mediaType == "movie" {
      media := Some(Media(item, None, None));
    } else {
      messages := ["Unsupported media type: " + item.mediaType];
    }
  }

  /** The locator `get_vidsrc_streaming_url` finds for the chosen media. */
  function LocatorOf(m: Media, embedFetch: string -> Vidsrc.EmbedFetch)
    : Result<Option<string>, Http.FetchError>
  {
    Vidsrc.Locate(IntToString(m.item.id), m.item.mediaType, m.season, m.episode, embedFetch)
  }

  /** The direct media URL: the locator's page resolved, or what stopped the lookup before
      it. */
  function DirectOf(m: Media, embedFetch: string -> Vidsrc.EmbedFetch,
                    playerFetch: string -> Vidsrc.PlayerFetch)
    : Result<Option<string>, Http.FetchError>
  {
    match LocatorOf(m, embedFetch)
    case Failure(e) => Failure(e)
    case Success(None) => Success(None)
    case Success(Some(url)) => Vidsrc.Resolve(url, playerFetch)
  }

  /** What `play` posts when no direct URL comes out of the lookup: the locator's error
      or absence, else the resolver's. */
  function StreamNotice(m: Media, embedFetch: string -> Vidsrc.EmbedFetch,
                        playerFetch: string -> Vidsrc.PlayerFetch): string
  {
    match LocatorOf(m, embedFetch)
    case Failure(_) => "Error getting streaming page URL."
    case Success(None) => "Could not find a VidSrc streaming page for the selected media/episode."
    case Success(Some(url)) =>
      if Vidsrc.Resolve(url, playerFetch).Failure? then "Error resolving direct media URL."
      else "Could not resolve a direct playable media URL."
  }

  /** The URL stage of `play`: the locator, then the direct media URL behind it. */
  method FindDirect(m: Media, embedFetch: string -> Vidsrc.EmbedFetch,
                    playerFetch: string -> Vidsrc.PlayerFetch)
    returns (notice: string, direct: Option<string>)
    ensures direct.Some? <==> DirectOf(m, embedFetch, playerFetch).Success?
                              && DirectOf(m, embedFetch, playerFetch).value.Some?
    ensures direct.Some? ==> DirectOf(m, embedFetch, playerFetch) == Success(direct)
    ensures direct.None? ==> notice == StreamNotice(m, embedFetch, playerFetch)
  {
    notice := "";
    var locator, probed := Vidsrc.GetStreamingUrl(IntToString(m.item.id), m.item.mediaType,
                                                  m.season, m.episode, embedFetch);
    if locator.Failure? {
      return "Error getting streaming page URL.", None;
    }
    if locator.value.None? {
      return "Could not find a VidSrc streaming page for the selected media/episode.", None;
    }
    var resolved := Vidsrc.ResolvePlayerUrl(locator.value.value, playerFetch);
    if resolved.Failure? {
      return "Error resolving direct media URL.", None;
    }
    if resolved.value.None? {
      return "Could not resolve a direct playable media URL.", None;
    }
    direct := resolved.value;
  }

  /** The last message of `play` once media was chosen: the URL stage's notice, the
      missing call, the source error, or `Now playing` with the title. */
  function PlayNotice(m: Media, imdbId: string, embedFetch: string -> Vidsrc.EmbedFetch,
                      playerFetch: string -> Vidsrc.PlayerFetch, inCall: bool,
                      sourceError: Option<string>): string
  {
    var direct := DirectOf(m, embedFetch, playerFetch);
    if !(direct.Success? && direct.value.Some?) then StreamNotice(m, embedFetch, playerFetch)
    else if !inCall then "Not in a voice channel. Use `m!join` first."
    else if sourceError.Some? then "Error creating stream source: " + sourceError.value
    else "Now playing: " + PlayTitle(m.item, imdbId, m.season, m.episode)
  }

  /** `handler.current_track_title`. `TrackEndNotifier` holds a clone of the same `Arc`,
      so its `act` is a method on the same object here. */
  class Handler {
    var currentTrackTitle: Option<string>

    constructor()
      ensures currentTrackTitle == None
    {
      currentTrackTitle := None;
    }

    /** `TrackEndNotifier::act`: the track ended, nothing is playing. */
    method TrackEnded()
      modifies this
      ensures currentTrackTitle == None
    {
      currentTrackTitle := None;
    }

    /** The `playing` arm. */
    method Playing() returns (reply: string)
      ensures currentTrackTitle.Some? ==> reply == "Currently playing: " + currentTrackTitle.value
      ensures currentTrackTitle.None? ==> reply == "Nothing is currently playing."
    {
      if currentTrackTitle.Some? {
        reply := "Currently playing: " + currentTrackTitle.value;
      } else {
        reply := "Nothing is currently playing.";
      }
    }

    /** The `stop` arm: with a call in the guild the title is cleared and the call left
      (`leftOk` says whether leaving worked); without one nothing changes. */
    method Stop(inCall: bool, leftOk: bool) returns (reply: string)
      modifies this
      ensures inCall ==> currentTrackTitle == None
      ensures !inCall ==> currentTrackTitle == old(currentTrackTitle)
      ensures !inCall ==> reply == "Not in a voice channel."
      ensures inCall && leftOk ==> reply == "Playback stopped and left voice channel."
      ensures inCall && !leftOk ==> reply == "Playback stopped. Failed to leave voice channel."
    {
      if !inCall {
        return "Not in a voice channel.";
      }
      currentTrackTitle := None;
      if leftOk {
        reply := "Playback stopped and left voice channel.";
      } else {
        reply := "Playback stopped. Failed to leave voice channel.";
      }
    }

    /** The `play` arm, from the id check to `Now playing`. It returns the messages
      posted in order, and whether playback started.

      `voice` is the connection found or made first; `find` TMDB's answer to the id lookup
      and `tv` its answer for the show's details (`None` for a failed request);
      `seasonReply`, `fetchSeason` and `episodeReply` drive the selection dialogue;
      `embedFetch` and `playerFetch` answer the locator's page requests; `inCall` says whether
      the call is still there when playback starts and `sourceError` whether building the
      HTTP source failed.

      Once a direct URL is in hand and the call is there, `call.stop()` ends whatever was
      playing, and that track's end notifier clears the title; the new title is written
      only when the new source starts. */
    method Play(arg: string, voice: VoiceJoin, apiKey: Option<string>,
                find: Option<FindResponse>, tv: Option<TvDetails>,
                seasonReply: Option<string>, fetchSeason: nat -> Option<SeasonDetails>,
                episodeReply: Option<string>,
                embedFetch: string -> Vidsrc.EmbedFetch, playerFetch: string -> Vidsrc.PlayerFetch,
                inCall: bool, sourceError: Option<string>)
      returns (messages: seq<string>, played: bool)
      modifies this
      ensures !IsValidImdbId(Trim(arg)) ==> !played && messages == [InvalidImdbId]
      ensures var m := ChosenMedia(arg, voice, apiKey, find, tv, seasonReply, fetchSeason, episodeReply);
        && (m.None? ==>
              messages == ChooseMessages(arg, voice, apiKey, find, tv, seasonReply, fetchSeason,
                                         episodeReply))
        && (m.Some? ==>
              messages == ChooseMessages(arg, voice, apiKey, find, tv, seasonReply, fetchSeason,
                                         episodeReply)
                          + [PlayNotice(m.value, Trim(arg), embedFetch, playerFetch, inCall,
                                        sourceError)])
      ensures var m := ChosenMedia(arg, voice, apiKey, find, tv, seasonReply, fetchSeason, episodeReply);
        var stopped := m.Some? && DirectOf(m.value, embedFetch, playerFetch).Success?
                       && DirectOf(m.value, embedFetch, playerFetch).value.Some? && inCall;
        && (played <==> stopped && sourceError.None?)
        // the title changes only once the call is stopped for the new source
        && (!stopped ==> currentTrackTitle == old(currentTrackTitle))
        && (stopped && sourceError.Some? ==> currentTrackTitle == None)
        && (played ==>
              currentTrackTitle == Some(PlayTitle(m.value.item, Trim(arg), m.value.season,
                                                  m.value.episode)))
    {
      var id := Trim(arg);
      played := false;
      var media;
      messages, media := ChooseMedia(arg, voice, apiKey, find, tv, seasonReply, fetchSeason,
                                     episodeReply);
      if media.None? {
        return;
      }
      var item, season, episode := media.value.item, media.value.season, media.value.episode;
      var notice, direct := FindDirect(media.value, embedFetch, playerFetch);
      if direct.None? {
        messages := messages + [notice];
        return;
      }
      if !inCall {
        messages := messages + ["Not in a voice channel. Use `m!join` first."];
        return;
      }
      // `call.stop()`: the stopped track's end notifier clears the slot
      currentTrackTitle := None;
      if sourceError.Some? {
        messages := messages + ["Error creating stream source: " + sourceError.value];
        return;
      }
      var fullTitle := PlayTitle(item, id, season, episode);
      currentTrackTitle := Some(fullTitle);
      messages := messages + ["Now playing: " + fullTitle];
      played := true;
    }
  }
}
