# moviebot-rs, modelled in Dafny

This project models the logic of moviebot-rs. The repository holds two bots:

- A Discord bot (`discord_movie_bot/src/main.rs`) that plays movies and TV episodes into a voice call.
  - It looks an IMDB id up on TMDB.
  - For a show, it walks the user through choosing a season and an episode.
  - It probes the vidsrc mirror domains for an embed page, then digs a direct media URL out of the player page.
  - It records the title of what is playing.
- A slash-command bot (`src/client/commands.rs`) with votes, a streaming-service search dispatch and a poster collage.
  - Its searchers are built from decoded Netflix, Fasel and Shahid answers (`src/server/classes/*.rs`).

Modules:

- **Wrappers, Seqs, Text, Json, Http**: Rust and serde_json primitives, modelled as the code uses them.
  - `str::split` always gives at least one piece.
  - `parse::<u32>` and `parse::<u64>` accept an optional `+` and have a range limit.
  - `trim` is modelled with its whitespace class.
  - `to_lowercase` is modelled as ASCII lowering. Its one use compares the result with `fasel` and `netflix`, and a name lowers to one of those by ASCII rules exactly when it does by Unicode rules, so the dispatch decision is the same.
  - `Value` indexing (a missing member reads as `null`) is distinct from `get` (a missing member gives `None`).
  - `to_string` keeps the quotes of a JSON string.
- **M3u8**: the regex `https?://[^"]+\.m3u8` as a hand-written matcher. Rust's leftmost-first search with a greedy class gives the leftmost start and, at that start, the longest end. The matcher proves exactly that.
- **Vidsrc**: `get_vidsrc_streaming_url` and `resolve_player_url` as methods over page-fetch parameters.
- **Catalog, Selection**: the TMDB lookups' choices, the reply texts, the title format, and the season and episode dialogue.
- **Bot**: the `search`, `imdb`, `play`, `stop` and `playing` arms. The class `Bot.Handler` holds `current_track_title`.
- **Commands**: the vote table class, `fetch_movies` dispatch, and the collage grid arithmetic.
- **Netflix, Fasel, Shahid**: the searchers' result assembly, `is_show`, the episode list, the time conversion behind timeline seeking, and Shahid's pagination.

Everything external comes in as a parameter:

- the network: HTTP answers, already decoded or parsed into the elements the code inspects;
- the `TMDB_API_KEY` variable;
- the user's chat replies, where `None` stands for the 30-second timeout;
- the voice connection's state;
- the `HashMap` iteration order.

Points of the code's behaviour worth noting:

- The playing title has the form `... (IMDB: id)`.
- `play` sets the title after starting the track.
- One title slot is shared by all guilds.
- `stop` clears the title only when there is a call.
- In `resolve_player_url`, the `file:"` marker and the m3u8 regex are both tried on each script before the next script. They do not run as two separate passes over all scripts.
- A transport failure on a mirror domain moves on to the next domain. A failure reading the body of a successful answer ends the whole search with an error.
- The collage cells are 290 by 390 pixels. The height is `350 + 20 + 2 * 10`.

## Model

| member | source | states |
|---|---|---|
| Text.ParseUnsigned | discord_movie_bot/src/main.rs:477 | `parse::<uN>`: a parsed value is always below the type's limit |
| Text.ParseNatToString | discord_movie_bot/src/main.rs:477 | a rendered number below the limit parses back to itself |
| Text.ParseRejectsOverflow | discord_movie_bot/src/main.rs:477 | a number at or above the limit is rejected |
| Text.ParseRejectsEmpty | discord_movie_bot/src/main.rs:477 | empty text is rejected |
| Text.ParsePlusSign | discord_movie_bot/src/main.rs:477 | a leading `+` before the digits is accepted, and `+` alone is rejected |
| Text.Split | src/server/classes/netflix.rs:518 | `split(sep)` always gives at least one piece |
| Text.SplitPiecesFree | src/server/classes/netflix.rs:518 | no piece contains the separator |
| Text.JoinSplit | src/server/classes/netflix.rs:518 | joining the pieces with the separator gives the text back |
| Text.SplitAround | src/server/classes/netflix.rs:518 | `a.b` with no separator in `a` splits into `a` followed by the pieces of `b` |
| Text.SplitNoSep | src/server/classes/netflix.rs:518 | text without the separator is one piece |
| Text.SplitTwo | src/server/classes/netflix.rs:518 | `a.b` with no separator in either piece splits into exactly `a` and `b` |
| Text.TrimSlice | discord_movie_bot/src/main.rs:298 | `trim` returns a slice of the input with whitespace only around it |
| Text.TrimUnchanged | discord_movie_bot/src/main.rs:298 | text with no whitespace at either end is its own trim |
| Text.IsWhitespace | discord_movie_bot/src/main.rs:298 | the characters with the Unicode `White_Space` property, which `trim` drops |
| Text.Trim | discord_movie_bot/src/main.rs:298 | `trim`: the leading whitespace dropped, then the trailing whitespace |
| Text.NatToString | discord_movie_bot/src/main.rs:326 | decimal rendering: at least one digit, all digits, no leading zero unless the number is 0 |
| Text.NatToStringInjective | discord_movie_bot/src/main.rs:567 | different numbers render differently |
| Text.DigitsOfNatToString | discord_movie_bot/src/main.rs:326 | the rendered digits' value is the number |
| Text.ToLowerAscii | src/client/commands.rs:103 | the lower-cased text is as long as the input, with each ASCII capital lowered and everything else kept |
| Text.ToLowerAsciiIdempotent | src/client/commands.rs:103 | lower-casing twice is lower-casing once |
| Json.LookupFinds | src/server/classes/netflix.rs:163 | `get` on an object finds a member exactly when one has that key, and returns the value of the first member with that key |
| Json.Get | src/server/classes/netflix.rs:163 | `Value::get`: the member of an object, `None` for a missing key or a non-object |
| Json.Field | src/server/classes/shahid.rs:54 | `value[key]` indexing: like `get`, with a missing member read as `null` |
| Json.RenderScalars | src/server/classes/netflix.rs:199 | `to_string` writes a number as its digits and a plain string between quotes |
| Json.EscapePlain | src/server/classes/netflix.rs:199 | a string without quotes, backslashes or control characters is written unchanged inside the quotes |
| Json.Escape | src/server/classes/netflix.rs:199 | serde_json's escaping of a string literal's characters: quote, backslash, the named control escapes and `\u00XX` for other controls |
| Json.Render | src/server/classes/netflix.rs:199 | `Value::to_string`: compact JSON text, strings quoted and escaped |
| M3u8.Find | discord_movie_bot/src/main.rs:242 | the regex finds nothing exactly when no substring matches `https?://[^"]+\.m3u8`, and otherwise the leftmost-longest match |
| M3u8.FindFrom | discord_movie_bot/src/main.rs:242 | from a position on, the first start with a match, and the longest match there |
| M3u8.LongestAt | discord_movie_bot/src/main.rs:242 | the longest match at one start, none exactly when no match starts there |
| M3u8.MatchShape | discord_movie_bot/src/main.rs:242 | every match starts with `http`, holds no quote and ends in `.m3u8` |
| M3u8.FindShape | discord_movie_bot/src/main.rs:242 | so does the text the search returns |
| Vidsrc.EmbedUrl | discord_movie_bot/src/main.rs:153-167 | a URL exists for a movie, or for a show with season and episode, in the `/embed/movie/id` or `/embed/tv/id/s-e` form |
| Vidsrc.FirstEmbedSrc | discord_movie_bot/src/main.rs:175-178 | the first iframe whose `src` names one of the four embed hosts, none if no iframe does |
| Vidsrc.IsEmbedSrc | discord_movie_bot/src/main.rs:175 | the iframe selector: a `src` containing one of the four embed hosts |
| Vidsrc.UpgradeScheme | discord_movie_bot/src/main.rs:180-182 | a `src` starting with `//` gets `https:` in front, any other is kept |
| Vidsrc.ProbeOf | discord_movie_bot/src/main.rs:170-196 | one domain's answer: a failed send, a non-success status or no embed iframe skip it, an unreadable body aborts, a found iframe gives its upgraded `src` |
| Vidsrc.LocateFrom | discord_movie_bot/src/main.rs:170-196 | the domain loop from one domain on: an impossible URL gives nothing, a found iframe ends it, an abort is an error, a skip moves on |
| Vidsrc.Locate | discord_movie_bot/src/main.rs:149-199 | `get_vidsrc_streaming_url`'s result as a function of the mirrors' answers |
| Vidsrc.GetStreamingUrl | discord_movie_bot/src/main.rs:143-200 | domains are tried in order and the first embed found wins; an impossible URL requests nothing and gives none; failed or unsuccessful domains are skipped; a body read error aborts |
| Vidsrc.NormalizePlayerUrl | discord_movie_bot/src/main.rs:205-208 | a URL without `http://` or `https://` gets `https:` in front |
| Vidsrc.UpgradeSchemeIdempotent | discord_movie_bot/src/main.rs:180-182 | upgrading `//` to `https://` twice is upgrading once |
| Vidsrc.NormalizeAfterUpgrade | discord_movie_bot/src/main.rs:180-208 | an iframe `src` with a scheme or `//`, once upgraded by the locator, is not changed again by the player-page normalisation |
| Vidsrc.VideoStageReadsOnlyFirst | discord_movie_bot/src/main.rs:218-229 | only the first video's `src` and its first `source`'s `src` are read: videos agreeing on those give the same URL whatever follows, and no video gives none |
| Vidsrc.FileMarkerValue | discord_movie_bot/src/main.rs:233-235 | the text between the first `file:"` and the next quote, none when either is missing |
| Vidsrc.ScriptStageNamesMedia | discord_movie_bot/src/main.rs:233-245 | what a script yields names `.m3u8` or `.mp4` |
| Vidsrc.ScriptStage | discord_movie_bot/src/main.rs:233-245 | one script's yield: the `file:"` value when it names `.m3u8` or `.mp4`, else the first m3u8 regex match |
| Vidsrc.FirstScript | discord_movie_bot/src/main.rs:231-246 | the first script that yields a URL decides, none when no script does |
| Vidsrc.FirstScriptHitUnique | discord_movie_bot/src/main.rs:231-246 | the script loop's result is determined: two results meeting its contract are equal |
| Vidsrc.Resolve | discord_movie_bot/src/main.rs:203-250 | `resolve_player_url`'s result as a function of the player page's answer |
| Vidsrc.ScanScripts | discord_movie_bot/src/main.rs:231-246 | the first script that yields a URL decides, by marker then regex, and later scripts are not consulted |
| Vidsrc.TryScript | discord_movie_bot/src/main.rs:232-245 | one script yields the `file:"` value when it names media, else the regex match |
| Vidsrc.ResolvePlayerUrl | discord_movie_bot/src/main.rs:203-250 | the normalised URL is fetched; a send failure is an error; non-success gives none; otherwise the video stage wins over the script stage |
| Catalog.ChooseFound | discord_movie_bot/src/main.rs:131-139 | none exactly when both result lists are empty |
| Catalog.ChooseFoundTagsBucket | discord_movie_bot/src/main.rs:131-139 | the first movie, tagged `movie`, when there is one; else the first show, tagged `tv` |
| Catalog.DisplayTitle | discord_movie_bot/src/main.rs:321 | `title`, else `name`, else `N/A` |
| Catalog.DisplayYear | discord_movie_bot/src/main.rs:322-324 | the release or first-air date before its first `-`, else `N/A` |
| Catalog.KindLabel | discord_movie_bot/src/main.rs:325 | `Movie`, `TV Show`, or the raw media type |
| Catalog.SearchLine | discord_movie_bot/src/main.rs:326 | `n. Kind: Title (Year)` on its own line |
| Catalog.SearchReplyText | discord_movie_bot/src/main.rs:315-327 | the no-results message, or the header and the lines of the first five results |
| Catalog.DisplayYearIsDatePrefix | discord_movie_bot/src/main.rs:322-324 | the year is the date up to its first `-` |
| Catalog.DisplayYearOfDate | discord_movie_bot/src/main.rs:360-361 | a date `year-rest` shows as `year` |
| Catalog.SearchReply | discord_movie_bot/src/main.rs:315-327 | the reply built by the loop is the specified text: the header and one numbered line per result among the first five, or the no-results message |
| Catalog.SearchLinesPrefix | discord_movie_bot/src/main.rs:320 | the lines depend only on the results shown |
| Catalog.SearchReplyTopFive | discord_movie_bot/src/main.rs:320 | results after the fifth do not change the reply |
| Catalog.ImdbDetailText | discord_movie_bot/src/main.rs:357-363 | the bold kind, title and year, then the overview or `No overview available.` |
| Catalog.PlayTitleNamesEpisode | discord_movie_bot/src/main.rs:566-570 | two titles of the same show and id are equal exactly when they name the same season and episode, a missing one counting as 0; a movie's title does not depend on them |
| Catalog.PlayTitleEndsWithId | discord_movie_bot/src/main.rs:566-570 | every title ends with `(IMDB: id)` |
| Selection.ImdbIdShape | discord_movie_bot/src/main.rs:347 | an id is accepted exactly when it is `tt` followed by at least one character |
| Selection.IsValidImdbId | discord_movie_bot/src/main.rs:347 | the id check `starts_with("tt") && len > 2` |
| Selection.ReplyChoice | discord_movie_bot/src/main.rs:476-489 | timed out exactly when there is no reply; chosen only for a parsed `u32` among the listed numbers; rejected when parsing fails or the number is not listed |
| Selection.ReplyAcceptsListed | discord_movie_bot/src/main.rs:478 | every listed number, typed back, is chosen |
| Selection.ReplyIsMembershipNotRange | discord_movie_bot/src/main.rs:521 | with numbers 1, 3 and 5, `2` is rejected and `3` chosen |
| Selection.NumberList | discord_movie_bot/src/main.rs:472 | the season list shows each season number |
| Selection.SeasonPrompt | discord_movie_bot/src/main.rs:468-473 | the show's name, its season count, the season numbers joined by `, ` and the reply hint |
| Selection.EpisodeNumbers | discord_movie_bot/src/main.rs:521 | the accepted episode numbers, one per episode in order |
| Selection.Shown | discord_movie_bot/src/main.rs:507 | the prompt lists ten episodes, or all of them if fewer |
| Selection.EpisodePrompt | discord_movie_bot/src/main.rs:506-513 | the prompt built by the loop is the specified text: header, shown lines, `...` when more than ten, and the range hint |
| Selection.EpisodePromptText | discord_movie_bot/src/main.rs:506-513 | the header, the lines of the first ten episodes, `...` when more follow, and the range hint |
| Selection.EpisodeLinesPrefix | discord_movie_bot/src/main.rs:507-508 | the listed lines depend only on the episodes shown |
| Selection.EpisodePromptDependsOnFirstTen | discord_movie_bot/src/main.rs:506-513 | two seasons with the same first ten episodes, overflow and last number get the same prompt |
| Selection.SelectEpisode | discord_movie_bot/src/main.rs:463-533 | no seasons exactly when the list is empty or the count is 0, reported alone; otherwise the season prompt comes first |
| Selection.SelectedIff | discord_movie_bot/src/main.rs:476-533 | a season and episode are selected exactly when both replies name listed numbers and the season's episodes load and are non-empty |
| Selection.SeasonTimeoutEnds | discord_movie_bot/src/main.rs:486-489 | no season reply ends the dialogue with the timeout message |
| Selection.EmptySeasonEnds | discord_movie_bot/src/main.rs:501-504 | a season with no episodes ends the dialogue with its message |
| Bot.SearchCommand | discord_movie_bot/src/main.rs:303-339 | empty query, missing key, empty key, failed request, and otherwise the search reply |
| Bot.ImdbRejectsBeforeLookup | discord_movie_bot/src/main.rs:347-350 | a malformed id is refused whatever the key and TMDB would say |
| Bot.ImdbShowsChosen | discord_movie_bot/src/main.rs:357-383 | with a valid id and key, the reply describes the chosen record, or says none was found |
| Bot.Handler.constructor | discord_movie_bot/src/main.rs:273-277 | nothing is playing at first |
| Bot.Handler.TrackEnded | discord_movie_bot/src/main.rs:259-263 | the end-of-track event clears the title |
| Bot.Handler.Playing | discord_movie_bot/src/main.rs:638-643 | the reply names the title, or says nothing is playing |
| Bot.Handler.Stop | discord_movie_bot/src/main.rs:600-614 | with a call the title is cleared and the reply says whether leaving worked; without one nothing changes |
| Bot.ImdbReply | discord_movie_bot/src/main.rs:341-391 | the `imdb` reply: the id refusal, the missing or empty key, the TMDB error, the detail text of the chosen record, or the no-media message |
| Bot.RecordMedia | discord_movie_bot/src/main.rs:450-540 | the media a found record yields: a movie alone, a show with its selected season and episode, nothing otherwise |
| Bot.RecordMediaIff | discord_movie_bot/src/main.rs:450-540 | media exactly for a movie, or for a show whose details arrived and whose dialogue selected an episode; a movie has no season or episode, a show the selected ones |
| Bot.ChosenMedia | discord_movie_bot/src/main.rs:410-540 | the media the `play` arm goes on to stream: none on a bad id or when no call is ready, otherwise the lookup's media |
| Bot.ChooseMessages | discord_movie_bot/src/main.rs:410-533 | the messages the `play` arm posts up to the stream lookup |
| Bot.ChosenMediaIff | discord_movie_bot/src/main.rs:410-540 | media is chosen exactly when the id is valid, the voice is ready, the key is usable, TMDB found a record and that record yields media, and it is then that record's media |
| Bot.ChooseMessagesPaths | discord_movie_bot/src/main.rs:410-533 | each failing stage posts its own notice: the id refusal, the failed join, no voice channel, the key, the fetch error, no media, the TV details error, an unsupported type; a fresh join is announced first and a show's dialogue messages follow |
| Bot.ChooseMedia | discord_movie_bot/src/main.rs:410-540 | the messages and the chosen media are exactly those the stage functions specify, on every path |
| Bot.JoinStage | discord_movie_bot/src/main.rs:418-432 | the call is ready exactly when connected or freshly joined; a fresh join is announced; a failed join and a missing user channel each end with their notice |
| Bot.LookupStage | discord_movie_bot/src/main.rs:433-540 | the key check, the TMDB lookup and the record stage give the specified messages and media |
| Bot.RecordStage | discord_movie_bot/src/main.rs:450-540 | the movie, show and unsupported-type branches give the specified messages and media |
| Bot.DirectOf | discord_movie_bot/src/main.rs:542-552 | the locator's error or missing page passed through, otherwise the player page's resolution |
| Bot.StreamNotice | discord_movie_bot/src/main.rs:542-552 | the notice for each way the URL stage fails |
| Bot.PlayNotice | discord_movie_bot/src/main.rs:542-578 | the last message once media is chosen: the URL stage's notice, the missing call, the source error, or `Now playing` with the title |
| Bot.FindDirect | discord_movie_bot/src/main.rs:542-552 | a direct URL exactly when the locator found an embed page and the player page yielded a URL, which is then the resolved one; otherwise the notice of the stage that failed |
| Bot.Handler.Play | discord_movie_bot/src/main.rs:410-579 | a malformed id gives only the refusal; the messages are the choice's messages followed, once media is chosen, by the stream, call, source-error or `Now playing` notice; a track is played exactly when media was chosen, a direct URL found, a call exists and the source was built; the title is untouched before the stop, cleared by the stop, and set to the built title on success |
| Commands.VoteTable.constructor | src/client/client.rs:350 | the table starts empty |
| Commands.VoteTable.Vote | src/client/commands.rs:34-41 | the choice's count goes up by one, wrapping at 2^32, nothing else changes, and the reply names the new count |
| Commands.VoteTable.VotesFor | src/client/commands.rs:185-190 | no votes (absent or 0) gives the nobody message, otherwise the count message |
| Commands.VoteTable.AllVotes | src/client/commands.rs:192-202 | one line per entry in iteration order, or the fallback text for an empty table |
| Commands.VoteLinesEmpty | src/client/commands.rs:198-199 | the lines are empty exactly when the table is |
| Commands.VoteLinesMention | src/client/commands.rs:194-195 | every entry's line, with its count, appears in the listing |
| Commands.Dispatch | src/client/commands.rs:102-108 | the lower-cased name `fasel` or `netflix` picks that searcher, anything else is the unsupported error |
| Commands.DispatchIgnoresCase | src/client/commands.rs:103 | a name and its lower-cased form dispatch alike |
| Commands.Columns | src/client/commands.rs:112 | `ceil(sqrt n)`: the least column count whose square holds `n` |
| Commands.Rows | src/client/commands.rs:113 | `ceil(n / cols)`: the least row count that holds `n` cells |
| Commands.CellPositions | src/client/commands.rs:126-128 | cell `i` is at column `i % cols` and row `i / cols`, 290 and 390 pixels apart |
| Commands.CellInsideCanvas | src/client/commands.rs:121-141 | an image drawn at a cell plus the 10-pixel frame stays inside the canvas when the grid holds every cell |
| Commands.CollageFits | src/client/commands.rs:111-141 | the grid the function computes always holds every cell |
| Commands.CellsDisjoint | src/client/commands.rs:126-128 | distinct cells do not overlap |
| Netflix.Wrap64 | src/server/classes/netflix.rs:525-526 | `u64` arithmetic wraps, and leaves in-range values alone |
| Netflix.ConvertTimeFormat | src/server/classes/netflix.rs:517-527 | the result fits in a `u64`; unparsable hours, unparsable minutes and minutes of 60 or more give none |
| Netflix.ConvertParts | src/server/classes/netflix.rs:520-526 | a value exactly when hours and minutes parse as `u64` and the minutes are below 60, and then `(h * 60 + m) * 60000` wrapped to 64 bits |
| Netflix.ConvertFromParts | src/server/classes/netflix.rs:518-526 | parsed hours and minutes below 60 give `(h * 60 + m) * 60000` |
| Netflix.ConvertHoursMinutes | src/server/classes/netflix.rs:517-527 | `h.m` with `m < 60` gives its milliseconds |
| Netflix.ConvertHoursOnly | src/server/classes/netflix.rs:521 | without a dot the minutes are 0 |
| Netflix.ConvertIgnoresThirdPart | src/server/classes/netflix.rs:518-521 | a third dotted part is never read |
| Netflix.ConvertRejectsMinutes | src/server/classes/netflix.rs:523 | 60 or more minutes are rejected |
| Netflix.ConvertRejectsEmptyParts | src/server/classes/netflix.rs:520-521 | empty input and a trailing dot are rejected |
| Netflix.Millis | src/server/classes/netflix.rs:525-526 | `(h * 60 + m) * 60 * 1000` with each step wrapped to 64 bits |
| Netflix.SeekTarget | src/server/classes/netflix.rs:466-478 | an invalid time is an error; the maximum is `aria-valuemax` as `u64` (0 when missing or unparsable) times 1000; a zero maximum is an error; otherwise the target clamped to it |
| Netflix.SeekTargetClamped | src/server/classes/netflix.rs:430-478 | a valid target is clamped to the knob's maximum in milliseconds |
| Netflix.SeekRejectsUnknownMax | src/server/classes/netflix.rs:466-475 | a missing or unparsable maximum is an error |
| Netflix.IsShow | src/server/classes/netflix.rs:90-115 | a show exactly when the first video has a `seasons.edges` member, keeping that video; otherwise the `movie_id` object |
| Netflix.IsShowByEdgesKey | src/server/classes/netflix.rs:99-100 | the presence of `edges` decides, whatever its value |
| Netflix.IsShowWithoutVideos | src/server/classes/netflix.rs:91-115 | no videos array, or an empty one, means a movie |
| Netflix.AllItems | src/server/classes/netflix.rs:162-176 | the first `searchPage` entry's bucket `0` items, then its bucket `1` items |
| Netflix.HasImage | src/server/classes/netflix.rs:180-188 | the filter: `summary.value.imgUrl` is a non-empty string |
| Netflix.EntityId | src/server/classes/netflix.rs:197-200 | `entityId`'s JSON text, quotes kept for a string, or empty |
| Netflix.EntryOf | src/server/classes/netflix.rs:192-217 | the watch URL of the entity id, the image URL, the display string and `is_show` of the id |
| Netflix.Entries | src/server/classes/netflix.rs:192-217 | one entry per item, in order |
| Netflix.EntriesSnoc | src/server/classes/netflix.rs:212 | pushing one more item adds its entry at the end |
| Netflix.TakeImaged | src/server/classes/netflix.rs:178-221 | the loop yields the entries of the first nine items with an image |
| Netflix.TakeLoopExit | src/server/classes/netflix.rs:189-190 | the loop may stop at nine entries or at the end of the items |
| Netflix.Search | src/server/classes/netflix.rs:159-229 | the search gives the specified entries for the decoded answer |
| Netflix.SearchResultsShape | src/server/classes/netflix.rs:180-217 | at most nine entries, each with a non-empty image and a watch URL |
| Netflix.SearchPrefersFirstBucket | src/server/classes/netflix.rs:168-176 | nine imaged items in bucket `0` leave bucket `1` unused |
| Netflix.TriplesOneToOne | src/server/classes/netflix.rs:321-331 | one triple per edge with a `node`, in order |
| Netflix.TriplesDefaults | src/server/classes/netflix.rs:322-329 | an edge without `node` yields nothing; a bare node gives `(0, Unknown, 0)` |
| Netflix.TripleOf | src/server/classes/netflix.rs:322-330 | one node's `(number, title, videoId)`, with `0`, `Unknown` and `0` for what is missing |
| Netflix.EpisodesForShow | src/server/classes/netflix.rs:312-334 | no edges array gives nothing, otherwise the edges' triples |
| Fasel.StripArabic | src/server/classes/fasel.rs:35-49 | the result has no character of U+0600 to U+06FF and is no longer than the input |
| Fasel.StripArabicKeepsOthers | src/server/classes/fasel.rs:49 | text without such characters is unchanged |
| Fasel.StripArabicAppend | src/server/classes/fasel.rs:49 | stripping works piece by piece, keeping order |
| Fasel.StripArabicIdempotent | src/server/classes/fasel.rs:49 | stripping twice is stripping once |
| Fasel.TrimBeforeStrip | src/server/classes/fasel.rs:43-49 | trimming comes first: a title made of an Arabic character, a space and another character cleans to the space and that character (`ف X` gives ` X`) |
| Fasel.CleanName | src/server/classes/fasel.rs:43-49 | the trimmed text of the first title element, or `Unknown`, with Arabic characters removed |
| Fasel.Link | src/server/classes/fasel.rs:41-42 | the `href` of the card's first anchor |
| Fasel.Pairs | src/server/classes/fasel.rs:31-40 | the i-th card goes with the i-th image, for at most nine and the shorter list |
| Fasel.Search | src/server/classes/fasel.rs:40-57 | the loop yields the specified results |
| Fasel.ResultsAreLinkedPairs | src/server/classes/fasel.rs:40-53 | the results are the linked pairs' entries, in order |
| Fasel.ResultsBounded | src/server/classes/fasel.rs:31-40 | at most nine results, and no more than cards or images |
| Fasel.ResultsShape | src/server/classes/fasel.rs:41-52 | each result has a card's link, a name without Arabic characters, and the fixed `movie_id "0"` non-show classification |
| Fasel.Results | src/server/classes/fasel.rs:40-55 | one entry per paired card that has a link, in order |
| Fasel.SkippedCardConsumesImage | src/server/classes/fasel.rs:40-42 | a card without a link drops out together with its image |
| Shahid.Search | src/server/classes/shahid.rs:48-78 | `No products found` when the products are not an array, otherwise one entry per product, in order |
| Shahid.EntryFields | src/server/classes/shahid.rs:54-73 | title defaults to `Unknown`, type to `""`, a show exactly for type `show`, the product kept whole |
| Shahid.EntryOfProduct | src/server/classes/shahid.rs:54-75 | the tuple pushed for one product: title, playlist id, type and classification |
| Shahid.FirstEpisodes | src/server/classes/shahid.rs:58-63 | the first playlist titled `Episodes`, none if there is none |
| Shahid.PlaylistIdOfEpisodes | src/server/classes/shahid.rs:55-66 | the id is the string id of the first Episodes playlist |
| Shahid.PlaylistIdStopsAtFirst | src/server/classes/shahid.rs:58-66 | no id, or a non-string id, on the first Episodes playlist gives `No ID found`, whatever later playlists hold |
| Shahid.PlaylistId | src/server/classes/shahid.rs:55-66 | the string id of the first Episodes playlist, else `No ID found` |
| Shahid.AppendEpisodes | src/server/classes/shahid.rs:106-116 | one `(url, title)` pair per product, pushed in order |
| Shahid.EpisodeOf | src/server/classes/shahid.rs:107-115 | one playlist product's `(productUrl.url, title)`, empty strings for what is missing |
| Shahid.ReadPage | src/server/classes/shahid.rs:89-123 | a send or decode failure aborts, a non-success status or a page without products stops, and otherwise the page's products are taken |
| Shahid.FetchPlaylist | src/server/classes/shahid.rs:80-128 | pages are requested 0, 1, 2, ... and the first page without products ends the walk; a send or decode failure there is an error, otherwise the pairs of the earlier pages |
| Shahid.ContinuedBeforeMeans | src/server/classes/shahid.rs:87-119 | the walk reached page `n` exactly when every page before it had products |
| Shahid.CollectedReadsOnlyEarlierPages | src/server/classes/shahid.rs:87-125 | the result depends only on the pages before the stop |
| Shahid.CollectedGrows | src/server/classes/shahid.rs:104-119 | each page appends to what the earlier pages gathered |
| Shahid.Collected | src/server/classes/shahid.rs:104-119 | the pairs of the pages before a given one, in page order |

## Left out

- HTTP requests, headers, cookies and the endpoint URLs. Every answer is a parameter.
- HTML parsing with `scraper` and JSON decoding with `serde`. Pages and answers come in already parsed.
- JSON floating-point numbers. Numbers are integers here.
- Songbird voice calls: join, leave, deafen, pause, resume, and `seek_time`, which backs `skip`. Their outcomes are parameters of `Bot.Handler.Play` and `Bot.Handler.Stop`.
- The `volume` arm. It parses an `f32` and scales by floating point.
- Mutexes, async tasks and the reply wait's timer. The title slot is updated in sequence, and a timed-out reply is `None`.
- Prefix dispatch of chat messages (`m!` and `!`, and `trim_start_matches`), bot-author filtering and the `ping` and `join` arms. Each arm takes the text after its command word.
- The guild-less check ("only in a server"). Direct messages are not modelled.
- The `imdb` arm's debug probe of vidsrc with a default of season 1, episode 1. It only prints.
- Bot.Handler.Play: `call.stop()` delivers the previous track's end event asynchronously. The model clears the title at the stop, so the race in which that event arrives after the new title is written, leaving the slot empty while the new track plays, is not captured.
- Netflix.Search: `is_show` is a total parameter. A failed `is_show` request, which the code unwraps and panics on, is not modelled.
- Netflix.ConvertTimeFormat and Netflix.SeekTarget: model release-build wrap-around. A debug build's overflow panic is left out.
- Commands.VoteTable.Vote: wraps at 2^32 as a release build does. A debug build's overflow panic is left out.
- Commands.CellPositions: the `f64` square root and division are integer `ceil` functions. They agree for the nine or fewer results the searchers return.
- The collage's image download, resizing and PNG encoding.
- All WebDriver code: `Netflix::start/pause/skipfront/skipback`, the pixel and percentage arithmetic of `skip_to_specific_timeline`, and `Fasel::start/pause`.
- `create_form_data` and `format_shahid_playlist_url`, which only call serde's URL and JSON encoders.
- Shahid.FetchPlaylist: requires that some page ends the walk. The code would loop forever against a server that never returns an empty page.
- Shahid search's request construction and URL encoding.
- `src/main.rs` (browser start-up), `src/server/functions.rs` and `src/client/client.rs` beyond the vote table's type. These are not part of this model.
- `shahidApiTesting.js`, a manual test script. It is not part of this model.
