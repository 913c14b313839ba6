# Riff backend core, modelled in Dafny

Riff turns a Spotify track link, a Spotify playlist link or a YouTube video
link into a downloadable MP3 (or a ZIP of MP3s for a playlist). `POST
/convert` classifies the link, creates a pending job row and starts a
background pipeline. The pipeline posts progress updates to the job table:

- a track is looked up on Spotify, matched to a YouTube video by a scoring
  function, downloaded, converted and tagged;
- a video is downloaded directly;
- a playlist's tracks are downloaded four at a time and packed into an
  archive.

Each job ends either completed, with a download link, or in error with
progress 0. Stale jobs and expired files are swept periodically.

The model has one module per source concern:

| file | module | models |
|---|---|---|
| `wrappers.dfy` | `Wrappers` | `Option` and `Result` |
| `text.dfy` | `Text` | the JavaScript string operations the core uses: lower-casing, `trim`, `split`/`join`, `includes`, `String(n)`, `padStart` |
| `url_classifier.dfy` | `UrlClassifier` | `detectUrlType`: its three regular expressions, written out as the searches they perform |
| `filenames.dfy` | `Filenames` | the file-name sanitiser and the names built from it |
| `match_scorer.dfy` | `YouTubeService` | `calculateMatchScore` and `findYouTubeMatch` |
| `artist_inference.dfy` | `ArtistInference` | the artist guessed from a video title |
| `job_store.dfy` | `JobStore` | the SQLite `jobs` table and `jobStore` |
| `spotify_service.dfy` | `SpotifyService` | the token cache, the id extractors, the embed and oEmbed fallback, and the playlist pager |
| `conversion_service.dfy` | `ConversionService` | `downloadAndConvert` and `tagMP3File` on a temporary directory |
| `file_manager.dfy` | `FileManager` | download URLs, the expired-file sweep and `deleteFile` |
| `formatting.dfy` | `Formatting` | `formatUptime` and `formatDuration` |
| `pipelines.dfy` | `Pipelines` | the track and video pipelines |
| `playlist_pipeline.dfy` | `PlaylistPipeline` | the playlist pipeline and its four-slot scheduler |
| `convert_route.dfy` | `ConvertRoute` | the `POST /convert` handler |

Everything the core asks of the outside world is a parameter:

- the clock and the uuid;
- the Spotify and YouTube answers;
- the downloader process;
- the cover request;
- the archiver;
- file-system failures.

The job table, the temporary directory, the token cache and the playlist
scheduler are classes whose methods change their fields. Each method is
proved against a function of the old state, and the properties are proved
about those functions.

## Model

| member | source | states |
|---|---|---|
| Text.LowerChar | backend/src/services/youtubeService.js:59-61 | no upper-case ASCII letter remains: each becomes the lower-case letter at the same place in the alphabet; every other character is unchanged |
| Text.LowerIdempotent | backend/src/services/youtubeService.js:59-61 | lower-casing twice is lower-casing once |
| Text.JsLength | backend/src/routes/conversion.js:169-170 | `.length` counts UTF-16 code units: between the number of characters and twice it, and equal to it exactly when no character lies outside the Basic Multilingual Plane |
| Text.StartsWithIsPrefix | backend/src/routes/conversion.js:21-45 | the character-by-character `startsWith` holds exactly when the literal is a prefix |
| Text.ContainsWitness | backend/src/services/youtubeService.js:64-71 | when `includes` holds, the needle occurs at some index of the text |
| Text.TrimStart | backend/src/routes/conversion.js:210-213 | the result is a suffix; what was dropped is all whitespace; the result does not start with whitespace |
| Text.TrimEnd | backend/src/routes/conversion.js:210-213 | the result is a prefix; what was dropped is all whitespace; the result does not end with whitespace |
| Text.Trim | backend/src/routes/conversion.js:210-213 | the result neither starts nor ends with whitespace |
| Text.TrimIsInfix | backend/src/routes/conversion.js:210-213 | `trim` removes exactly a whitespace prefix and a whitespace suffix |
| Text.TrimOfTrimmed | backend/src/routes/conversion.js:210-213 | a string without whitespace at either end is its own trim |
| Text.SplitWhere | backend/src/services/spotifyService.js:99 | a split yields at least one piece, and no piece holds a separator |
| Text.JoinSplit | backend/src/services/youtubeService.js:74-80 | splitting on one character and joining with it gives the string back |
| Text.SplitJoin | backend/src/services/spotifyService.js:99 | joining separator-free pieces and splitting again gives the pieces back |
| Text.NatToString | backend/src/routes/conversion.js:389 | `String(n)` is a non-empty digit string, without a leading zero, of length 1 exactly below 10 |
| Text.ParseNatToString | backend/src/routes/conversion.js:389 | the printed number reads back as itself |
| Text.NatToStringInjective | backend/src/routes/conversion.js:384 | different numbers print differently |
| Text.PadStart2 | backend/src/routes/conversion.js:389 | strings of two or more characters are unchanged; shorter ones get zeros in front up to length two |
| Text.ParseNatPadStart2 | backend/src/routes/conversion.js:389 | padding a digit string with zeros keeps its value |
| UrlClassifier.TrackExact | backend/src/routes/conversion.js:22-23 | the link is classified as a Spotify track with id `id` exactly when, ignoring ASCII case, it is `http(s)://(open.)spotify.com/track/` followed by the maximal alphanumeric run `id` |
| UrlClassifier.PlaylistExact | backend/src/routes/conversion.js:24-25 | the same, for a playlist |
| UrlClassifier.VideoExact | backend/src/routes/conversion.js:26-27 | the link is classified as a video with id `id` exactly when it is `http(s)://(www.)` with `youtube.com/watch?v=`, `youtube.com/shorts/` or `youtu.be/`, followed by the maximal run `id` of `[a-zA-Z0-9_-]` |
| UrlClassifier.RejectExact | backend/src/routes/conversion.js:44 | the classifier returns null exactly when the link has none of the three shapes, for any id |
| Filenames.RemoveForbidden | backend/src/routes/conversion.js:211 | no character of `<>:"/\|?*` survives, and nothing is added |
| Filenames.SanitizeIsSafe | backend/src/routes/conversion.js:210-213 | a sanitised name has no forbidden character, only single plain spaces as whitespace, and no whitespace at either end |
| Filenames.SanitizeFixedPoints | backend/src/routes/conversion.js:210-213 | sanitising leaves a name unchanged exactly when the name is already safe |
| Filenames.SanitizeIdempotent | backend/src/routes/conversion.js:210-213 | sanitising twice is sanitising once |
| Filenames.SanitizeKeepsVisible | backend/src/routes/conversion.js:210-213 | the non-whitespace, non-forbidden characters survive in order |
| Filenames.SanitizeKeepsSuffix | backend/src/routes/conversion.js:210 | a plain extension such as `.mp3` survives at the end |
| Filenames.SanitizeKeepsPrefix | backend/src/routes/conversion.js:389-394 | a non-empty safe prefix survives at the front |
| Filenames.Ordinal | backend/src/routes/conversion.js:389 | a track's ordinal is at least two digits |
| Filenames.OrdinalValue | backend/src/routes/conversion.js:389 | the ordinal reads back as the one-based position |
| Filenames.OrdinalInjective | backend/src/routes/conversion.js:389 | different positions get different ordinals |
| Filenames.TrackFileNameShape | backend/src/routes/conversion.js:210-213 | the download name `Artist - Title.mp3` is safe and ends in `.mp3` |
| Filenames.ArchiveNameShape | backend/src/routes/conversion.js:526-529 | the archive name is safe and ends in `.zip` |
| Filenames.PlaylistEntryNamePrefix | backend/src/routes/conversion.js:389-394 | an entry name starts with its ordinal and ` -` |
| Filenames.PlaylistEntryNameShape | backend/src/routes/conversion.js:389-394 | an entry name is safe and ends in `.mp3` |
| Filenames.PlaylistEntryNamesDistinct | backend/src/routes/conversion.js:389-394 | two positions never produce the same entry name, whatever the artists and titles |
| YouTubeService.CalculateMatchScore | backend/src/services/youtubeService.js:57-127 | the method that adds the terms one block at a time computes the match score, counting word lengths in UTF-16 code units |
| YouTubeService.ScoreRange | backend/src/services/youtubeService.js:64-126 | the score is NaN exactly when the track title is not contained and has no long word; otherwise it lies in 0..100 |
| YouTubeService.TitleTermRange | backend/src/services/youtubeService.js:64-71 | a contained title scores 40; otherwise the share of long words (more than two UTF-16 code units) found, scaled to at most 25 |
| YouTubeService.ArtistTermCases | backend/src/services/youtubeService.js:74-80 | the artist term is 30 exactly when some artist part occurs in the video title, and 0 otherwise |
| YouTubeService.DurationTermMonotone | backend/src/services/youtubeService.js:83-97 | a larger duration difference never raises the duration term |
| YouTubeService.DurationTermBands | backend/src/services/youtubeService.js:83-97 | an unknown duration scores 0; a known one scores +20 below 5 s, +10 below 15 s, +5 below 30 s and −20 above 120 s, each band both ways |
| YouTubeService.UnwantedCountSpec | backend/src/services/youtubeService.js:105-119 | the penalty counts each unwanted term that the video title has and the track title lacks, once |
| YouTubeService.FirstTen | backend/src/services/youtubeService.js:25 | `slice(0, 10)`: a prefix of at most ten results, and all of them when there are fewer |
| YouTubeService.KeepPositive | backend/src/services/youtubeService.js:30 | every kept candidate scores above zero |
| YouTubeService.KeepPositiveExact | backend/src/services/youtubeService.js:30 | the filter keeps exactly the candidates whose score is above zero (NaN is not), each with its score, in their original order |
| YouTubeService.SortByScoreSorted | backend/src/services/youtubeService.js:31 | the ranking is sorted by descending score and is a permutation of its input |
| YouTubeService.SortByScoreHead | backend/src/services/youtubeService.js:31-34 | the head of the ranking is the earliest candidate with the highest score (the sort is stable) |
| YouTubeService.SearchQueries | backend/src/services/youtubeService.js:8-13 | the search tries four queries |
| YouTubeService.ScoreAll | backend/src/services/youtubeService.js:26-29 | the scoring loop computes every candidate's match score |
| YouTubeService.RankResults | backend/src/services/youtubeService.js:24-34 | the ranking of the first ten results is empty exactly when none of them scores above zero; otherwise its head is the best of them: the highest score, the earliest on ties |
| YouTubeService.RankEmpty | backend/src/services/youtubeService.js:24-33 | the ranking is empty exactly when no candidate among the first ten scores above zero |
| YouTubeService.RankHead | backend/src/services/youtubeService.js:24-34 | the head of a non-empty ranking is the candidate among the first ten with the highest score, the earliest of equal scores, and carries that score |
| YouTubeService.HitExact | backend/src/services/youtubeService.js:19-33 | a query settles the search exactly when it returns a non-empty video list with a candidate among the first ten scoring above zero |
| YouTubeService.FindYouTubeMatch | backend/src/services/youtubeService.js:4-54 | the loop over the queries returns the match the query order defines, and returns none exactly when no query yields a candidate among its first ten results scoring above zero |
| YouTubeService.SearchFromNone | backend/src/services/youtubeService.js:15-53 | there is no match exactly when no query hits, that is, exactly when no query yields a non-empty video list with a candidate among its first ten scoring above zero |
| YouTubeService.SearchFromSome | backend/src/services/youtubeService.js:15-46 | a match comes from the first query that hits and is the head of that query's ranking |
| YouTubeService.SearchFromBest | backend/src/services/youtubeService.js:15-46 | a match comes from the first query whose first ten results hold a positively scored candidate, and it is the highest scored of those ten, the earliest on ties |
| YouTubeService.RankSound | backend/src/services/youtubeService.js:24-31 | every ranked candidate is among the first ten results, scores positive, carries its match score, and the ranking is sorted |
| ArtistInference.LazyEndSpec | backend/src/routes/conversion.js:156-157 | the lazy group ends at the first position where the rest of the pattern matches, and fails exactly when there is none |
| ArtistInference.DashGroupSpec | backend/src/routes/conversion.js:156 | the "Artist - Song" group is the shortest non-empty one-line prefix followed by optional whitespace, a dash, bar or en/em dash, and more text; nothing is captured exactly when no prefix qualifies |
| ArtistInference.ByGroupSpec | backend/src/routes/conversion.js:157 | the "Song by Artist" pattern captures a group exactly when the title matches it, and the group is that of the match the engine picks: the least prefix end, then the latest group start the greedy `\s+` allows, then the earliest group end |
| ArtistInference.StripNoiseKeeps | backend/src/routes/conversion.js:165 | text with no noise word is left as it is |
| ArtistInference.Clean | backend/src/routes/conversion.js:163-166 | the cleaned candidate has no whitespace at either end |
| ArtistInference.InferArtist | backend/src/routes/conversion.js:151-177 | the inference runs only for "Unknown Artist" and a non-empty title, and its result is the inferred artist |
| ArtistInference.PickArtist | backend/src/routes/conversion.js:159-176 | the loop over the two patterns stops at the first acceptable candidate (UTF-16 length 2..49) and yields the inferred artist; with none it keeps the artist |
| ArtistInference.InferredPicks | backend/src/routes/conversion.js:160-177 | the first pattern whose candidate is acceptable wins; with none, the artist is kept |
| ArtistInference.InferredSpec | backend/src/routes/conversion.js:152-178 | the artist changes only when it is "Unknown Artist" and the title is non-empty, and then only to a trimmed pattern candidate whose UTF-16 length is 2..49 (1..49 characters); an acceptable dash candidate wins; otherwise it stays unknown |
| JobStore.NewRecordDefaults | backend/src/utils/database.js:47-66 | a new row takes the given values or "pending", "Initializing..." and 0, carries no result fields, and both timestamps are the creation time |
| JobStore.MergeCombine | backend/src/utils/database.js:96-156 | two updates in a row are one update with the later values winning |
| JobStore.MergeIdempotent | backend/src/utils/database.js:96-156 | repeating an update changes nothing |
| JobStore.MergeKeepsIdentity | backend/src/utils/database.js:96-156 | an update keeps the id and creation time and sets the update time; an empty update changes only the update time |
| JobStore.MergeReadsBack | backend/src/utils/database.js:103-146 | each of the eleven updatable fields (status, step, progress, metadata, playlistInfo, downloadUrl, filename, fileSize, quality, error, completedAt) reads back the supplied value, or keeps its old value when not supplied; id, type, source and creation time never change and the update time is now |
| JobStore.ApplyUpdate | backend/src/utils/database.js:100-148 | the field-by-field update computes the merged row |
| JobStore.SweepKeepsPending | backend/src/utils/database.js:165-177 | a pending job is never swept, however old |
| JobStore.SweepIdempotent | backend/src/utils/database.js:165-177 | a second sweep at the same cutoff removes nothing |
| JobStore.StatsPartition | backend/src/utils/database.js:180-203 | the three status counts are disjoint parts of the total, and the pending count is the active count |
| JobStore.CountAfterInsert | backend/src/utils/database.js:47-66 | a new row raises its status's count by one and leaves the other counts alone |
| JobStore.Store.constructor | backend/src/utils/database.js:45 | the table starts empty |
| JobStore.Store.Create | backend/src/utils/database.js:47-66 | a fresh id adds exactly the new row and returns it; a taken id fails and changes nothing |
| JobStore.Store.Get | backend/src/utils/database.js:69-93 | the row is returned exactly when the id is present, and null otherwise |
| JobStore.Store.Update | backend/src/utils/database.js:96-156 | an unknown id yields null and changes nothing; otherwise only that row becomes the merged row, which is returned |
| JobStore.Store.Delete | backend/src/utils/database.js:159-162 | exactly that id is removed |
| JobStore.Store.CleanupOld | backend/src/utils/database.js:165-177 | exactly the completed or failed rows created before the cutoff are removed, and their number is returned |
| JobStore.Store.GetStats | backend/src/utils/database.js:180-195 | the total and the per-status counts, with null sums on an empty table |
| JobStore.Store.GetActiveCount | backend/src/utils/database.js:198-203 | the number of pending rows |
| SpotifyService.OrNull | backend/src/services/spotifyService.js:161 | `x \|\| null` keeps exactly the truthy values |
| SpotifyService.OrDefault | backend/src/services/spotifyService.js:178-180 | `x \|\| fallback` is the value when it is truthy and the fallback otherwise |
| SpotifyService.TokenStepCases | backend/src/services/spotifyService.js:7-41 | a fresh cached token is served unchanged; the cache is refreshed exactly when no token is fresh and a request with usable credentials succeeds; nothing is returned exactly when neither happens |
| SpotifyService.RefreshServesUntilExpiry | backend/src/services/spotifyService.js:8-10 | a refreshed token is served without a request until 60 seconds before its lifetime ends |
| SpotifyService.ExpiredNotServed | backend/src/services/spotifyService.js:8-18 | after expiry, a call that cannot refresh yields nothing |
| SpotifyService.TokenCache.constructor | backend/src/services/spotifyService.js:3-4 | the cache starts with no token and expiry 0 |
| SpotifyService.TokenCache.GetToken | backend/src/services/spotifyService.js:7-41 | the cached token and expiry change, and the call returns, as the token step says |
| SpotifyService.SearchFound | backend/src/services/spotifyService.js:44-55 | an extracted id follows the leftmost occurrence of the pattern and is the whole alphanumeric run there |
| SpotifyService.SearchMissed | backend/src/services/spotifyService.js:44-55 | the extractor yields null exactly when the pattern occurs nowhere |
| SpotifyService.ExtractFromLink | backend/src/services/spotifyService.js:44-55 | for every lower-case link of the classifier's shape (either scheme, with or without `open.`), the extractor returns that link's id |
| SpotifyService.CapitalHostRefused | backend/src/services/spotifyService.js:44-55 | the classifier folds case and the extractors do not: `http://open.Spotify.com/track/` followed by any id without an `s` is classified as a track with that id, yet `extractTrackId` finds none |
| SpotifyService.ExtractFromUri | backend/src/services/spotifyService.js:46-47 | a `spotify:kind:id` URI yields its id |
| SpotifyService.SplitDescriptionPieces | backend/src/services/spotifyService.js:99 | the splitting loop yields the pieces between bullets with the surrounding whitespace dropped |
| SpotifyService.PiecesCount | backend/src/services/spotifyService.js:99 | there is one piece more than there are bullets |
| SpotifyService.PiecesNoBullets | backend/src/services/spotifyService.js:99 | no piece holds a bullet |
| SpotifyService.PiecesOfJoin | backend/src/services/spotifyService.js:99 | a description written as clean fields joined by " · " splits back into those fields |
| SpotifyService.ReadDescriptionPresent | backend/src/services/spotifyService.js:100-106 | the artist is read exactly when there is at least one bullet, and the album when there are two |
| SpotifyService.EmbedSources | backend/src/services/spotifyService.js:79-130 | a truthy JSON-LD field wins over the meta tags, and the cover is the `og:image` |
| SpotifyService.FirstImage | backend/src/services/spotifyService.js:157 | the cover is the first image's URL when that is non-empty, and null otherwise |
| SpotifyService.MetadataFailures | backend/src/services/spotifyService.js:138-200 | the lookup fails with the API message exactly when a token is present and the API request fails, and with the oEmbed message exactly when no token is present and oEmbed fails |
| SpotifyService.FallbackShape | backend/src/services/spotifyService.js:168-192 | without credentials the record never has an empty artist or album and has no duration, release date, track number or ISRC; without an embed page it is "Unknown Artist", "Unknown Album" and the oEmbed title |
| SpotifyService.FallbackFromDescription | backend/src/services/spotifyService.js:93-107 | a "Song · Artist · Album" description yields that artist and album |
| SpotifyService.ApiArtistsReadBack | backend/src/services/spotifyService.js:155 | the artists joined with ", " split back into the same names on the scorer's side |
| SpotifyService.ValidTracksSpec | backend/src/services/spotifyService.js:236-246 | the playable items are kept and every kept track comes from one, with a non-empty id |
| SpotifyService.GetPlaylistMetadata | backend/src/services/spotifyService.js:203-267 | the paging loop computes the playlist result |
| SpotifyService.PlaylistFacts | backend/src/services/spotifyService.js:203-267 | the lookup asks for credentials exactly without a token and fails exactly when a request fails; on success the count is the number of tracks and every id is non-empty |
| ConversionService.BeforeDash | backend/src/services/conversionService.js:120 | `split("-")[0]` is the longest dash-free prefix |
| ConversionService.TagRecordFields | backend/src/services/conversionService.js:115-141 | the tag record copies title and artist, uses the album or "Unknown Album", derives year and track number exactly when they are present, and embeds a cover exactly when there is a cover URL and its fetch succeeded |
| ConversionService.YearOfIsoDate | backend/src/services/conversionService.js:120 | an ISO date yields its year |
| ConversionService.JobNamesDistinct | backend/src/services/conversionService.js:58-59 | a job's two file names never coincide, and no two jobs share a name |
| ConversionService.AcquireProgress | backend/src/services/conversionService.js:62-89 | the progress reported is a prefix of 10, 90, 100: 10 alone exactly when the downloader fails, 10 and 90 exactly when removing the temporary audio file fails, and all three on success |
| ConversionService.AcquireSuccess | backend/src/services/conversionService.js:61-98 | the acquisition succeeds exactly when the downloader succeeds, the temporary audio file is absent or can be removed, and the MP3 exists; it then names `jobId.mp3` with the reported size and the tags, and the temporary audio file is gone |
| ConversionService.AcquireFailure | backend/src/services/conversionService.js:99-111 | on failure the first failing step's error is passed on (the downloader's, the temporary file's removal, or the missing MP3's, with no tags after a failed removal), the job's files are removed unless unlinking fails, and no other file is touched |
| ConversionService.TempFolder.constructor | backend/src/services/conversionService.js:40-43 | the directory holds the given files |
| ConversionService.TempFolder.RemoveJobFiles | backend/src/services/conversionService.js:101-109 | both of the job's files are removed except those whose unlink fails |
| ConversionService.TempFolder.DownloadAndConvert | backend/src/services/conversionService.js:46-112 | the outcome, the progress values, the tags and the new directory are those of the acquisition |
| FileManager.DownloadUrlReadBack | backend/src/utils/fileManager.js:5-9 | the URL is the base, `/downloads/` and the file name, so the name can be read back |
| FileManager.DownloadUrlInjective | backend/src/utils/fileManager.js:5-9 | different files get different URLs |
| FileManager.SweptPartition | backend/src/utils/fileManager.js:17-38 | a sweep splits the directory into kept and deleted entries |
| FileManager.SweptIdempotent | backend/src/utils/fileManager.js:17-38 | sweeping again at the same moment deletes nothing |
| FileManager.RemovedMonotone | backend/src/utils/fileManager.js:29-31 | a later sweep deletes at least what an earlier one would have |
| FileManager.SweepListing | backend/src/utils/fileManager.js:21-38 | the loop over the listing leaves the swept directory and counts the deleted entries |
| FileManager.TempDirectory.constructor | backend/src/utils/fileManager.js:12 | the directory starts as given, and a missing directory holds no files |
| FileManager.TempDirectory.CleanupExpiredFiles | backend/src/utils/fileManager.js:12-46 | an absent directory or a failed listing changes nothing; otherwise exactly the expired entries whose stat and unlink succeed are deleted; a missing directory stays empty |
| FileManager.TempDirectory.DeleteFile | backend/src/utils/fileManager.js:49-59 | it returns true exactly when the file existed and unlinking it succeeded, and only then is the file gone |
| Formatting.Trunc | backend/src/routes/debug.js:227-231 | `Math.trunc` rounds toward zero: the result lies between zero and the argument, less than one away from it |
| Formatting.UptimeFields | backend/src/routes/debug.js:227-231 | days, hours, minutes and seconds are the mixed-radix digits of the whole seconds |
| Formatting.UptimeDecomposition | backend/src/routes/debug.js:227-231 | the fields are within their ranges and add up to the whole seconds |
| Formatting.UptimeReadBack | backend/src/routes/debug.js:227-239 | the printed uptime splits into components with strictly decreasing units, ending in seconds, all non-zero but the last, summing to the whole seconds |
| Formatting.ComponentsShape | backend/src/routes/debug.js:233-239 | printed fields split back into well-formed components |
| Formatting.DurationFields | frontend/src/services/api.js:28-29 | minutes and seconds bracket a positive duration to the second |
| Formatting.DurationReadBack | frontend/src/services/api.js:26-31 | a positive duration prints as `m:ss`, and reading it back brackets the duration to the second |
| Formatting.DurationPlaceholder | frontend/src/services/api.js:27 | "--:--" is printed exactly for a missing or zero duration |
| Pipelines.ErrorUpdateShape | backend/src/routes/conversion.js:227-234 | the failure update sets status error, progress 0 and a non-empty message: the thrown one, or the fallback |
| Pipelines.ReplayReadsLast | backend/src/routes/conversion.js:120-122 | after a run of updates the row reads back what the last one supplied |
| Pipelines.ReplayIdentity | backend/src/routes/conversion.js:120-122 | the row keeps its id and creation time through any run of updates |
| Pipelines.EncodingProgress | backend/src/routes/conversion.js:200-205 | encoder progress 10, 90, 100 (or its prefix 10, 90 or 10) is posted as 63, 91, 95 (or the matching prefix) |
| Pipelines.Post | backend/src/routes/conversion.js:120-122 | posting an update replays it on the job's row |
| Pipelines.FinishOutcome | backend/src/routes/conversion.js:196-234 | a run completes exactly when the acquisition succeeds, with the download link, name and size; otherwise it ends with the acquisition's error |
| Pipelines.TrackRunOutcome | backend/src/routes/conversion.js:119-236 | a track job completes exactly when the metadata and a source are there, the download succeeds, the temporary audio file is not stuck and the MP3 exists; its name is a safe `.mp3`; otherwise it ends with the failing step's error |
| Pipelines.TrackRunProgress | backend/src/routes/conversion.js:126-232 | the progress is 10, 25, 35, 50, 60, 63, 91, 95, 100 on success, and a proper prefix of that followed by 0 on failure |
| Pipelines.TrackLookupProgress | backend/src/routes/conversion.js:126-143 | the lookup posts 10, 25 and 35 |
| Pipelines.TrackStartProgress | backend/src/routes/conversion.js:126-194 | the track start posts 10, 25, 35, 50 and 60 |
| Pipelines.ProcessSpotifyConversion | backend/src/routes/conversion.js:119-236 | the table and the directory end as the track run says |
| Pipelines.VideoRunOutcome | backend/src/routes/conversion.js:239-312 | a video job completes exactly when the metadata is there, the download succeeds, the temporary audio file is not stuck and the MP3 exists; otherwise it ends with the failing step's error |
| Pipelines.VideoRunProgress | backend/src/routes/conversion.js:246-309 | the progress is 10, 30, 50, 60, 63, 91, 95, 100 on success, and a proper prefix of that followed by 0 on failure |
| Pipelines.VideoStartProgress | backend/src/routes/conversion.js:246-271 | the video start posts 10, 30, 50 and 60 |
| Pipelines.ProcessYouTubeConversion | backend/src/routes/conversion.js:239-312 | the table and the directory end as the video run says |
| Pipelines.TrackJobEnds | backend/src/routes/conversion.js:215-234 | after a track pipeline the row is completed at 100 or in error at 0 with a message, and every other row is untouched |
| PlaylistPipeline.DownloadTrackSpec | backend/src/routes/conversion.js:367-410 | a track is saved exactly when a source is found, it converts and the move succeeds; it then lies in the playlist directory under its safe numbered name; a missed track reports its title |
| PlaylistPipeline.TrackJobIdsDistinct | backend/src/routes/conversion.js:384 | tracks at different positions download under different job ids |
| PlaylistPipeline.SavedEntriesDistinct | backend/src/routes/conversion.js:389-395 | two saved tracks never share an archive entry |
| PlaylistPipeline.BatchProgressMonotone | backend/src/routes/conversion.js:417-422 | download progress starts at 10, never falls and reaches 90 when every track has settled |
| PlaylistPipeline.CurrentTracksJoined | backend/src/routes/conversion.js:423-438 | the current tracks are the first three active titles joined with ", " |
| PlaylistPipeline.SchedulerDone | backend/src/routes/conversion.js:443-475 | once nothing is queued or active, every track has settled exactly once and the slots hold exactly the saved paths |
| PlaylistPipeline.Batch.PostProgress | backend/src/routes/conversion.js:417-440 | exactly one update is appended: the step text, `10 + floor(settled/n·80)`, the counters, `inProgress` and the first three current titles; the store replays it, and the posted updates keep ascending within 10..90 |
| PlaylistPipeline.Batch.Admit | backend/src/routes/conversion.js:445-448 | the next queued track becomes active, exactly one update is posted with `inProgress` already counting it but without its title among the current tracks, and the scheduler invariant is kept |
| PlaylistPipeline.Batch.Settle | backend/src/routes/conversion.js:450-463 | the chosen active download leaves the active set, is counted, its slot or failed name is recorded, and exactly one update is posted with the new counters and the remaining active titles |
| PlaylistPipeline.Batch.Run | backend/src/routes/conversion.js:443-475 | the scheduler runs until nothing is queued or active, keeping one posted update per admission and one per settlement, the last reporting the tracks settled so far |
| PlaylistPipeline.CollectDownloaded | backend/src/routes/conversion.js:481-485 | the downloaded files are the filled slots in playlist order |
| PlaylistPipeline.ArchiveFiles | backend/src/routes/conversion.js:481-506 | the archived files are the saved tracks' paths in order, with pairwise distinct entry names |
| PlaylistPipeline.ArchiveEntriesDistinct | backend/src/routes/conversion.js:503-506 | no track's file replaces another's in the archive |
| PlaylistPipeline.FirstFive | backend/src/routes/conversion.js:545 | at most the first five failed names are kept, and all of them when there are no more than five |
| PlaylistPipeline.ArchiveOutcomeSpec | backend/src/routes/conversion.js:521-571 | the job completes exactly when the archive is written and measured, even with every track failed; the counters cover every track; otherwise it ends in error at 0 with a message |
| PlaylistPipeline.DownloadTracks | backend/src/routes/conversion.js:413-478 | every track settles once in some order; the counters and failed names follow that order; exactly two updates are posted per track, rising within 10..90 and ending at 90 |
| PlaylistPipeline.ProcessPlaylistConversion | backend/src/routes/conversion.js:316-573 | a failed lookup posts 5 then the error; otherwise the job posts 5, the playlist, two rising batch updates per track ending at 90, then 92 and the archive outcome, and the archive entries are distinct |
| ConvertRoute.Convert | backend/src/routes/conversion.js:47-94 | the table, the response and the started pipeline are those the handler's rule gives |
| ConvertRoute.DispatchMatchesKind | backend/src/routes/conversion.js:86-93 | each kind has its own type string, and the dispatch on it starts that kind's pipeline |
| ConvertRoute.ClassifiedIdNonEmpty | backend/src/routes/conversion.js:21-45 | an accepted link always has a non-empty id |
| ConvertRoute.CheckExact | backend/src/routes/conversion.js:51-66 | a request is refused as missing exactly when the URL is absent or empty, and as invalid exactly when the link has none of the three shapes; otherwise the kind and id are those of its shape |
| ConvertRoute.RefusedCreatesNothing | backend/src/routes/conversion.js:51-66 | a refused request answers 400 with the guard's texts, starts nothing and leaves the table as it was |
| ConvertRoute.AcceptedCreatesOneJob | backend/src/routes/conversion.js:68-93 | an accepted request adds exactly one pending row at "Initializing..." and 0 with the link's type and id, changes no other row, and starts that kind's pipeline on it |

## Left out

- Network, processes and the file system: the YouTube search, `yt-dlp`, the Spotify HTTP requests, `axios`, `archiver`, `NodeID3` and `fs` are not modelled. What they answer is a parameter, and a directory is a set or map of names.
- HTML and JSON-LD scraping: the embed page is given as the meta-tag and JSON-LD fields it yields, because the regular expressions over HTML would add nothing the fields do not show.
- `getYouTubeMetadata` is imported by name from `youtubeService.js`, which exports only `findYouTubeMatch`. As an ES module the route therefore fails to link, and the route module cannot load as written. The video pipeline takes the function's would-be result (a `Result` of title and artist) as a parameter.
- Clocks and identifiers: `Date.now()` is one clock value per pipeline run, and the uuid of a new job is a parameter.
- Progress callbacks: the encoder's progress values are posted after the acquisition returns, in the order it reported them, not interleaved with its steps.
- The tag-write result: `tagMP3File`'s boolean is ignored by its caller, and the model ignores it too.
- ArtistInference.StripNoise: only its length bound and the case with no noise word are stated; the words it removes are not characterised.
- Floating point: the playlist progress and the `0.35` encoding share are computed exactly on integers. This agrees with the source for the values 10, 90 and 100 that the encoder reports.
- The playlist directory's `mkdirSync`/`rmdirSync` and the per-file unlink after zipping are not modelled. Only the archive's entries and the job updates are.
- `path.join` and `path.basename` are modelled as a separator join and split, without path normalisation.
- Per-track acquisitions in a playlist are given as their outcomes (converted, moved) rather than run through `downloadAndConvert`.
- Concurrency: a download settles atomically when the scheduler chooses it. `Promise.race` is a nondeterministic choice among the active downloads.
- A `spotifyUrl` request field that is not a string is not modelled; the field is an optional string.
- `formatFileSize` (in `fileManager.js` and in `api.js`), the React UI, the client-side URL validation, the status, stats and debug routes other than `formatUptime`, and other HTTP plumbing are not modelled.
- Match scores are exact real numbers, while the source adds IEEE doubles. Rounding can differ only in the last bits, so at most the order of near-equal scores could change.
- The id extractors `extractTrackId` and `extractPlaylistId` are exported but not called by the routes, which pass the classifier's id to the pipelines. Their case-sensitive patterns refuse links the classifier accepts with capitals in the host (`SpotifyService.CapitalHostRefused`).
- Case folding: only ASCII letters are folded, which is what a regular expression with the `i` flag and no `u` flag does. `toLowerCase` on non-ASCII letters is not modelled.
- Formatting.UptimeReadBack: `formatUptime` is modelled on a real number of seconds, not on an IEEE double.
