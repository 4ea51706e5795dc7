# Playlist converter core, in Dafny

MusicPlatformPlaylistConverter copies playlists and liked albums between Spotify and YouTube
Music. The project models its matching and assembly core as pure functions over immutable data.
The Spotify and YouTube Music searches, and the YouTube-side selector `find_best_match_ID`, are
function parameters. The API calls that create playlists are returned as a list of call records.

The modules follow the Python files:

- `Converter` (converter.dfy) covers the shared base class in ConverterClass.py: the canonical
  song record built from either catalog's raw track, the base-60 `H:M:S` duration parser, and
  the per-playlist tally of songs that were not added.
- `SpotifyConverter` (spotify_converter.dfy) covers Spotify → YouTube Music:
  - the two search queries and the result filter;
  - the loop that builds a duplicate-free video list and logs repeats and misses;
  - the duplicate step of `create_YT_playlist`.
- `YouTubeConverter` (youtube_converter.dfy) covers YouTube Music → Spotify:
  - `find_best_match` (an exact name+artist hit wins; otherwise an album bonus minus a duration
    penalty, with Python's first-inserted tie-break in `max`);
  - the loop that counts matches per Spotify id;
  - `create_SP_playlist`, which sends ids in batches of at most 100 and expands counts into
    duplicate copies.
- `Albums` (albums.dfy) holds the liked-album scoring, which both converters implement the same
  way.
- `Routing` (routing.dfy) is `main` in main.py as a pure function of the typed answers and the
  parts of the pasted URLs.
- `Text`, `Seqs`, `Ranking`, `PyDict` and `Results` hold the shared vocabulary:
  - ASCII case folding, `int()`, and `split`/`join`;
  - first occurrences and batching;
  - values extended with ±∞;
  - Python's insertion-ordered `dict` and `max(d, key=d.get)`;
  - `Option`.

The code is followed wherever it differs from the design description of the system. The design
describes several features that the code does not have, so they are not modelled:

- a positional and top-result bonus, a "same type" bonus and a score cut-off in the scorer;
- parenthesis-stripped extra queries;
- query de-duplication;
- a "deferred" tally bucket.

What the code does instead:

- Spotify → YouTube Music sends exactly two queries.
- YouTube Music → Spotify sends one query, chosen by the video type.
- The YouTube Music → Spotify scorer has only an album bonus and a duration penalty.

## Model

| member | source | states |
|---|---|---|
| Converter.ParseTokens | ConverterClass.py:135-136 | the tokens convert to integers exactly when every token is an `int()` numeral, and each value is that token's `int()` |
| Converter.PositionalIsHorner | ConverterClass.py:137-139 | the loop's sum of token·60^(n−1−i) equals the Horner evaluation of the tokens in base 60 |
| Converter.DurationShapes | ConverterClass.py:135-140 | "S" gives S, "M:S" gives 60M+S, and "H:M:S" gives 3600H+60M+S |
| Converter.DurationNonNegative | ConverterClass.py:135-140 | a duration whose colon-separated tokens are all digit strings parses, to a non-negative number of seconds |
| Converter.Base60Digits | ConverterClass.py:137-139 | every n ≥ 0 has base-60 digits, each below 60, that evaluate back to n |
| Converter.DurationRoundTrip | ConverterClass.py:127-140 | parsing the base-60 colon text of any n ≥ 0 (the "H:MM:SS" shape below 60 hours) gives back n |
| Converter.SpSongInfo | ConverterClass.py:89-103 | title, artist and album are case-folded copies; the id is copied; seconds·1000 equals `duration_ms` |
| Converter.YtSongInfo | ConverterClass.py:105-125 | title and artist are folded; the album is kept unchanged, or absent; seconds is the parse of `duration`; `top_result` holds iff the category is "Top result"; the record is absent exactly when `int()` fails |
| Converter.RecordUnfound | ConverterClass.py:73-86 | creates the playlist's entry only if it is absent, appends the query at the end of `unfound`, and leaves `dupes` and every other playlist unchanged |
| Converter.RecordDupe | SpotifyConverterClass.py:64-66 | appends (query, id) at the end of the playlist's `dupes`; `unfound` and every other playlist are unchanged |
| Converter.FoundIdsMembers | SpotifyConverterClass.py:55-72 | an id is among the matched ids iff some track's outcome matched it |
| Converter.OutcomesSplit | SpotifyConverterClass.py:55-72 | the matched ids and the logged misses together number exactly the tracks |
| Text.LowerIsFolded | ConverterClass.py:98-99 | `lower()` leaves no upper-case letter and is idempotent |
| Text.ParseDecimal | ConverterClass.py:136 | `int()` of the decimal text of n is n |
| Text.JoinSplit | ConverterClass.py:135 | joining the pieces of `split(":")` with ":" gives back the text |
| Text.SplitJoin | ConverterClass.py:135 | splitting the join of colon-free pieces gives back the pieces |
| Text.UpperIsLetter | main.py:29 | `s.upper()` is a given capital letter iff s is that letter in either case |
| Seqs.Dedup | SpotifyConverterClass.py:61-63 | the first-occurrence list has no duplicate, the same elements, and is no longer |
| Seqs.DedupSnoc | SpotifyConverterClass.py:61-63 | appending an element extends the first-occurrence list only when the element is new |
| Seqs.Chunks | YouTubeConverterClass.py:176-180 | the batches concatenate to the input, none exceeds the limit, all but the last are full, and the last is empty only for empty input |
| Ranking.FirstMaxIndex | YouTubeConverterClass.py:148 | the chosen value is a maximum and every earlier value is strictly below it (first maximum wins) |
| PyDict.Tabulate | YouTubeConverterClass.py:135-147 | the dict left by the assignments keeps its keys in first-assignment order, each holding its last assigned value |
| PyDict.BestKey | YouTubeConverterClass.py:148 | `max(d, key=d.get)`: absent only for no assignments; otherwise a key whose final value is maximal, with every earlier key strictly lower |
| PyDict.FirstValueAt | YouTubeConverterClass.py:73-74 | the value kept from the first assignment to a key is that of the first pair holding the key |
| PyDict.BestKeyOfTop | YouTubeConverterClass.py:138-139 | a last assignment of +∞, with no other +∞, makes that key the maximum |
| SpotifyConverter.YtQueriesShape | SpotifyConverterClass.py:87-89 | two distinct queries, "title artist" then "title by artist", each starting with the title and ending with the artist |
| SpotifyConverter.KeepPlayable | SpotifyConverterClass.py:91-94 | keeps exactly the non-null results of type "video" or "song" |
| SpotifyConverter.KeepPlayableAppend | SpotifyConverterClass.py:91-94 | the filter keeps search order (it distributes over concatenation) |
| SpotifyConverter.YtSearchResults | SpotifyConverterClass.py:86-96 | one normalised result list per query, in query order; absent when a result's duration does not parse |
| SpotifyConverter.ClassifySp | SpotifyConverterClass.py:56-72 | a null track is removed; a falsy selector answer is not found; otherwise it is matched to the selector's id; the reported query is the quoted name "by" the artist |
| SpotifyConverter.AssembleYtPlaylist | SpotifyConverterClass.py:55-72 | the video list is the first-occurrence list of the matched ids; misses are logged in order under this playlist only; repeats are logged as dupes, so the dupes and the list together hold every match |
| SpotifyConverter.AssembleYtDupes | SpotifyConverterClass.py:61-66 | the dupes logged under the playlist's name are, after any earlier ones, exactly the repeated matches in playlist order, each with its own track's query |
| SpotifyConverter.FoundRepeatKeeps | SpotifyConverterClass.py:64-68 | a repeated match, whatever `keep_dupes` is, keeps the loop invariant of `AssembleYtPlaylist`: the list stays the first-occurrence list and the repeat joins the logged dupes |
| SpotifyConverter.CreateYtPlaylist | SpotifyConverterClass.py:109-118 | creates the playlist from the list; adds the logged dupe ids in one further call only when duplicates are kept and some were logged |
| SpotifyConverter.SpToYtDuplicatePolicy | SpotifyConverterClass.py:55-118 | the created playlist has no duplicate; keeping duplicates sends every match as often as it occurred; dropping them sends each matched id once, in first-occurrence order |
| SpotifyConverter.CreateYtSendsLog | SpotifyConverterClass.py:109-117 | keeping duplicates, the calls send the list and then the ids of every dupe logged under the name, in logged order |
| SpotifyConverter.SpToYtRepeatsInOrder | SpotifyConverterClass.py:55-117 | for a new playlist name, the logged dupes are exactly the repeated matches; keeping duplicates sends the first-occurrence list followed by the repeated matches' ids, in playlist order |
| SpotifyConverter.AssembleRepeatScenario | SpotifyConverterClass.py:55-72 | [match, removed, same match] gives one video, "Song #2" unfound, and one dupe |
| SpotifyConverter.SpToYtScenario | SpotifyConverterClass.py:55-118 | the same three tracks, end to end, create one playlist with the single video and log the dupe under its query |
| SpotifyConverter.ConvertSpLikedAlbums | SpotifyConverterClass.py:133-161 | one outcome per liked album; an album with no results is reported by its query; the year cut is a parameter, so the same function is the code as written (three characters) and the corrected conversion (four) |
| SpotifyConverter.BluePickAsWritten | SpotifyConverterClass.py:140-155 | with the three-character cut, "Blue" by another artist and "Blue Deluxe" by "Joni" both score 200, and the first listed is picked |
| SpotifyConverter.BluePickCorrected | SpotifyConverterClass.py:140-155 | with the four-character cut, "Blue Deluxe" by "Joni" from 2011 scores 300 and is picked |
| SpotifyConverter.YearCutAsWritten | SpotifyConverterClass.py:133-158 | as written, liking "Blue" by "Joni" (2011) likes the same-title album by another artist |
| SpotifyConverter.YearCutCorrected | SpotifyConverterClass.py:133-158 | corrected, the same run likes "Blue Deluxe" by "Joni" from 2011 |
| Albums.CriteriaMet | SpotifyConverterClass.py:146-153 | lists, each once, exactly the criteria a result meets: same artist, same title, either title containing the other, same year text |
| Albums.AlbumScore | SpotifyConverterClass.py:143-153 | the score is the unit times the number of criteria met; so it runs from 0 to 4 units, is 4 iff all four criteria hold and 0 iff none does, and an exact title alone is worth at least 2 |
| Albums.PickAlbum | SpotifyConverterClass.py:143-159 | absent iff there are no results; otherwise a result id whose score (that of its last listing) is maximal, and every id first listed before it scores strictly less: ties go to the first-inserted id |
| Albums.ConvertLikedAlbums | YouTubeConverterClass.py:96-118 | every album ends up either liked or reported: liked plus not-added equals the album count |
| Albums.LikedCount | SpotifyConverterClass.py:136-161 | one id is liked for each album whose search returned anything |
| Albums.LikedArePicks | SpotifyConverterClass.py:136-158 | the liked ids are, in album order, the picks of the albums whose search returned anything: the album at position i puts its pick at the position counting such albums before it |
| Albums.EmptySearchesReported | YouTubeConverterClass.py:114-118 | every album whose search returns nothing is reported by its query |
| Albums.ReportedHadNoResults | SpotifyConverterClass.py:154-161 | only albums whose search returned nothing are reported |
| Albums.LikedWereFound | SpotifyConverterClass.py:154-158 | every liked id is among the search results of one of the albums |
| Albums.YearNeverMatchesAsWritten | SpotifyConverterClass.py:140 | the three-character cut of a release date never equals a four-character year |
| Albums.YearMatches | YouTubeConverterClass.py:112 | the four-character cut equals the year a release date starts with |
| YouTubeConverter.SpQueryShape | YouTubeConverterClass.py:65-69 | the search query is "name artist" for audio tracks and "name" otherwise; it differs from the reported "name by artist" |
| YouTubeConverter.Gap | YouTubeConverterClass.py:145 | the duration gap is non-negative and zero iff the durations are equal |
| YouTubeConverter.AlbumBonus | YouTubeConverterClass.py:141-142 | the bonus is the unit for a result whose album is non-empty and equal to the target's, and nothing otherwise |
| YouTubeConverter.Score | YouTubeConverterClass.py:141-147 | never +∞; −∞ iff the penalty overflows (the bonus is then discarded); otherwise score + penalty = bonus |
| YouTubeConverter.Scan | YouTubeConverterClass.py:132-139 | the j-th assignment is for the j-th result; there are no more assignments than results, and at least one for non-empty results |
| YouTubeConverter.FindBestMatch | YouTubeConverterClass.py:121-149 | no match (ValueError) iff there are no results; otherwise the id of some result |
| YouTubeConverter.ScanUpToHit | YouTubeConverterClass.py:137-139 | with a first exact hit at i, the scan scores the results before i and ends with +∞ for the hit |
| YouTubeConverter.ScanWithoutHit | YouTubeConverterClass.py:132-147 | without an exact hit, every result is scored |
| YouTubeConverter.ExactHitWins | YouTubeConverterClass.py:137-148 | the first result with equal name and artist is returned |
| YouTubeConverter.BestMatchWithoutHit | YouTubeConverterClass.py:135-148 | without an exact hit, the pick is `max` over the scores, where a repeated id keeps its last score |
| YouTubeConverter.ScoreDecreasesWithGap | YouTubeConverterClass.py:143-147 | with the same bonus and a penalty that grows with the gap, a result further from the target's duration never scores higher |
| YouTubeConverter.ScoreStrictlyDecreasesWithGap | YouTubeConverterClass.py:143-147 | with the same bonus and a penalty that grows strictly with the gap, a result strictly further from the target's duration scores strictly lower than a nearer one whose penalty did not overflow |
| YouTubeConverter.AlbumBonusNeedsFoldedAlbum | YouTubeConverterClass.py:141 | a YouTube album containing a capital letter never earns the bonus, because the Spotify album it is compared with has been folded |
| YouTubeConverter.ClassifyYt | YouTubeConverterClass.py:62-88 | a null entry is removed; an unreadable duration ends the conversion; an empty search is not found; otherwise the id `find_best_match` picks, so ExactHitWins and BestMatchWithoutHit say which; the reported query is "name by artist" |
| YouTubeConverter.ClassifyAllYt | YouTubeConverterClass.py:62-89 | one outcome per entry, in order; absent iff some entry ends the conversion |
| YouTubeConverter.MatchPairsKeys | YouTubeConverterClass.py:72-76 | the ids of the recorded matches are the matched ids |
| YouTubeConverter.CountsNew | YouTubeConverterClass.py:73-74 | storing a first match at the end with count 1 and its query keeps the map equal to the matched ids in first-match order, each with its first query and match count |
| YouTubeConverter.CountsRepeat | YouTubeConverterClass.py:75-76 | incrementing the count of a repeat, in place, keeps that same correspondence |
| YouTubeConverter.LoggedMiss | YouTubeConverterClass.py:78-86 | a miss appends its label to this playlist's `unfound` and changes nothing else |
| YouTubeConverter.CountMatchesCounts | YouTubeConverterClass.py:59-76 | the id/count map holds the matched ids in first-match order, each with its first query and its number of matches |
| YouTubeConverter.CountMatchesLogs | YouTubeConverterClass.py:78-86 | the misses are logged as unfound in order, under the playlist's name only, with "Song #n" for null entries |
| YouTubeConverter.SentAddCalls | YouTubeConverterClass.py:177-180 | the batch calls add exactly the concatenation of the batches |
| YouTubeConverter.KeyCalls | YouTubeConverterClass.py:167-180 | the playlist is created with the titled name and description; then batches of at most 100 add exactly the keys, in order |
| YouTubeConverter.DupeEntriesCount | YouTubeConverterClass.py:184-188 | an id with count c contributes exactly c−1 duplicate copies, and ids not in the map contribute none |
| YouTubeConverter.DupesAndKeys | YouTubeConverterClass.py:184-188 | the keys and the duplicate copies together hold each matched id exactly as often as it was matched |
| YouTubeConverter.AppendDupes | YouTubeConverterClass.py:189-190 | corrected (as written, line 190 reads a missing key and raises KeyError, see DupesCrashAsWritten): the duplicates are appended to this playlist's `dupes`; the entry is created only when there is something to log; other playlists are unchanged |
| YouTubeConverter.DupesCrashAsWritten | YouTubeConverterClass.py:184-190 | as written, the run raises KeyError exactly when duplicates are dropped and some id was matched twice |
| YouTubeConverter.RunCrashesAsWritten | YouTubeConverterClass.py:59-190 | as written, counting the matches and then creating the playlist raises KeyError exactly when duplicates are dropped and two entries matched the same Spotify track |
| YouTubeConverter.DupesOneBatchAsWritten | YouTubeConverterClass.py:191-195 | as written, an id matched n+1 times, for any n over 100, has its n duplicates sent in a single call, over the 100-track limit |
| YouTubeConverter.DupeCalls | YouTubeConverterClass.py:191-195 | corrected: the duplicates go out in batches of at most 100 that add exactly them |
| YouTubeConverter.CreateSpPlaylist | YouTubeConverterClass.py:151-195 | corrected: never more than 100 ids per call; sends the keys, then the duplicates only when kept; otherwise logs each duplicate with its first query |
| YouTubeConverter.CreateSpPlaylistAgrees | YouTubeConverterClass.py:151-195 | wherever the code as written completes within the batch limit, it does what the corrected version does |
| YouTubeConverter.ConvertYtToSpPlaylist | YouTubeConverterClass.py:39-91 | corrected: no playlist is created iff some entry has an unreadable duration; otherwise the run is the counting loop followed by the corrected `create_SP_playlist` over the entries' outcomes |
| YouTubeConverter.CreateSpKeepsAll | YouTubeConverterClass.py:191-195 | corrected: keeping duplicates sends every match as often as it occurred |
| YouTubeConverter.CreateSpDropsRepeats | YouTubeConverterClass.py:184-190 | corrected: dropping duplicates sends each matched id once and logs exactly the other matches, after any earlier log |
| YouTubeConverter.YtToSpDuplicatePolicy | YouTubeConverterClass.py:59-195 | corrected, end to end: with kept duplicates, every match is sent as often as it occurred; otherwise each matched id is sent once and the rest are logged; misses are logged in order; no call exceeds 100 ids |
| YouTubeConverter.ConvertYtLikedAlbums | YouTubeConverterClass.py:93-119 | one outcome per liked album; an album with no results is reported by its query; the year cut is a parameter, three characters as written and four corrected |
| Routing.JobAnswer | main.py:29-36 | the job answer is accepted iff it is "P"/"p" (playlist) or "L"/"l" (library) |
| Routing.DupesAnswer | main.py:33-37 | the duplicates answer is accepted iff it is "Y"/"y" (keep) or "N"/"n" (drop) |
| Routing.SourceAnswer | main.py:73-82 | "S"/"s" picks the Spotify library and "Y"/"y" the YouTube Music library; anything else asks again |
| Routing.FirstAccepted | main.py:29-34 | a prompt yields the first accepted answer, and every earlier answer was rejected |
| Routing.RouteUrl | main.py:41-68 | open.spotify.com with a "/playlist/" path gives the rest of the path as id; music.youtube.com with path "/playlist" gives the query minus 5 characters; otherwise one of three errors |
| Routing.SpotifyUrlRoundTrip | main.py:45-48 | the id in "/playlist/<id>" comes back out |
| Routing.YouTubeUrlRoundTrip | main.py:56-59 | the id in "?list=<id>" comes back out |
| Routing.FirstUrlCommand | main.py:38-68 | the conversion of the first playlist URL; none iff every URL is an error |
| Routing.FirstSourceCommand | main.py:69-82 | a library conversion carrying the duplicates choice; none iff no answer names a library; the Spotify library iff the first answer naming a library names Spotify, and likewise for YouTube Music |
| Routing.Dispatch | main.py:26-82 | nothing starts until both the job and the duplicates answers are accepted; then the job "P" runs the first playlist URL's conversion and "L" the first named library's, each carrying the accepted duplicates choice |
| Routing.PlaylistSession | main.py:26-64 | intended dispatch: a session with a rejected answer and a non-playlist URL still converts the later playlist URL |
| Routing.LibrarySession | main.py:26-82 | intended dispatch: a session with a rejected job answer and a rejected source answer converts the Spotify library, keeping duplicates |

## Left out

- `LIMIT` (SpotifyConverterClass.py:92) is defined in neither converter class. The search parameter
  stands for the limited search.
- Catalog I/O is not modelled: OAuth, search calls, pagination, playlist creation, liking and
  rating. Searches are function parameters, and the creation calls are returned as data.
- `find_best_match_ID` (SpotifyConverterClass.py:60) is called but not shown, so it is a selector
  parameter. A falsy answer (`None` or "") counts as not found.
- `print_unadded_song_error` (SpotifyConverterClass.py:66, 70, 72) does not exist in
  ConverterClass.py. Its "unfound" form is modelled as `print_unfound_song_error`. Its "dupes"
  form is modelled as the matching append of (query, id), whose id line 115 reads.
- Floating point is not modelled. `math.exp` becomes a penalty function parameter that returns a
  finite amount or overflow. `duration_ms/1000` is exact real division. `get_run_time` is left
  out.
- `SCORE_COEFFICIENT` and `EXP_COEFFICIENT` are read in YouTubeConverterClass.py but not defined
  in ConverterClass.py. The score unit and the penalty are therefore parameters. The Spotify side
  uses `SCORE` = 100.
- `song_info["name"]` (YouTubeConverterClass.py:65-69, 137) is taken to be the normaliser's
  `"title"` field. The KeyError that the missing key would raise is not modelled.
- Printing, colours, the reports of `print_not_added_songs` and `print_not_added_albums`, and the
  GUI (ConverterGUI.py) are not modelled.
- The class-level shared tally is passed through as a value.
- SpotifyConverter.SpToYtDuplicatePolicy: stated only for a playlist name not yet in the tally.
  The tally is shared by the whole class, so in library mode a second playlist with the same name
  also re-sends the dupes logged for the first one. `CreateYtPlaylist`'s contract covers that
  case: it sends every dupe logged under the name.
- YouTubeConverter.YtToSpDuplicatePolicy: stated only for a playlist name not yet in the tally.
  An earlier entry under the same name keeps its logs ahead of the new ones, as
  `CreateSpDropsRepeats` states.
- The calls in main.py do not match the signatures they call, and the model does not follow them:
  `Routing.Dispatch` models the dispatch as intended and stops at the choice of conversion. As
  written, `SpotifyConverter(YTM_CLIENT, keep_dupes)` and `YouTubeMusicConverter(YTM_CLIENT,
  keep_dupes)` (main.py:46, 57, 74, 78) pass two arguments to the three-argument `__init__`
  (ConverterClass.py:22). So every Spotify or YouTube Music URL, and both library choices, end in
  TypeError before the path is even checked. Line 51 also passes two arguments to the
  one-argument `convert_SP_to_YT_playlist` (SpotifyConverterClass.py:39).
- `self.print` (SpotifyConverterClass.py:51, 54, 64, 68, 107, 118, 135) is defined neither in the
  class nor in its base class. As written, `convert_SP_to_YT_playlist` raises AttributeError at
  line 51, before reading any track, and `convert_SP_to_YT_liked_albums` does the same at line
  135. The model reads `self.print` as the built-in `print`, which only prints.
- `int()` is modelled on ASCII digits with an optional sign. Surrounding whitespace, underscores
  between digits (`int("1_30")` is 130) and Unicode digits are not modelled; durations shown by
  YouTube Music contain none of them. Case folding covers ASCII letters only.
- Null entries in Spotify album or track search results (`res["artists"][0]`) are not modelled.
  An empty `artists` list is not modelled either.
- Library mode's loop over all playlists, and `get_all_SP_tracks`, are I/O and not modelled.
- YouTubeConverter.CountMatches: its own contract states only that the map stays well formed.
  The counting and logging are stated by `CountMatchesCounts` and `CountMatchesLogs`.
- SpotifyConverter.AssembleYtPlaylist: its contract is stated through the `AssembledFrom`
  predicate. That predicate spells out the list and the logs, but pins the new dupes only as a
  multiset. Their order and queries are stated by `SpotifyConverter.AssembleYtDupes`.
- SpotifyConverter.ConvertSpLikedAlbums: states only the count and the reporting of albums
  without results. The choice of album is stated by `Albums.PickAlbum`. The rest of the shared
  loop is stated by `Albums.ReportedHadNoResults`, `Albums.LikedWereFound`, `Albums.LikedCount`
  and `Albums.LikedArePicks`.
- YouTubeConverter.ConvertYtLikedAlbums: the same, for the opposite direction.
- Albums.ConvertLikedAlbums: its own contract states only the count. Its reporting and liking are
  stated by `Albums.EmptySearchesReported`, `Albums.ReportedHadNoResults`, `Albums.LikedWereFound`,
  `Albums.LikedCount` and `Albums.LikedArePicks`.
- YouTubeConverter.ConvertYtToSpPlaylist: ValueError from an unreadable duration is caught by no
  handler in the loop (only TypeError is caught), so the whole conversion ends with no result.
  The tally updates made before the exception are not returned. It composes the corrected
  `create_SP_playlist`; the code as written is `RunOutcomesAsWritten`, stated by
  `RunCrashesAsWritten` and `DupesOneBatchAsWritten`.

## Findings

| source | as written | input that shows it | evidently intended | confidence | as-written member | corrected member |
|---|---|---|---|---|---|---|
| YouTubeConverterClass.py:192 | the loop that batches duplicates tests `len(add_songs)`, which is already at most 100, so all duplicates go out in one call | `keep_dupes` true and one id matched 102 times: 101 duplicate ids in one `user_playlist_add_tracks` call | test `len(dupes)`, sending batches of at most 100 | not executed | YouTubeConverter.DupesOneBatchAsWritten | YouTubeConverter.DupeCalls |
| YouTubeConverterClass.py:190 | duplicates are logged via `sp_playlist[song_ID]['sp_query']`, a key the entries do not have (they hold `'full_sp_query'`); `NOT_ADDED_SONGS[yt_playlist_name]` may also be missing | `keep_dupes` false and any id matched twice: KeyError after the playlist is created | log each extra copy under `full_sp_query`, creating the entry if needed | not executed | YouTubeConverter.DupesCrashAsWritten | YouTubeConverter.CreateSpPlaylist |
| SpotifyConverterClass.py:140 | the album year is `release_date[:3]` (the same cut is at YouTubeConverterClass.py:112), compared with a four-character year, so the year criterion never holds | liked album "Blue" by "Joni" released "2011-05-02", with results "Blue" by "Other" (1999) then "Blue Deluxe" by "Joni" (2011): both score 200 and the first, by another artist, is liked | `release_date[:4]`, which scores "Blue Deluxe" 300 and likes it | not executed | SpotifyConverter.YearCutAsWritten | SpotifyConverter.YearCutCorrected |
