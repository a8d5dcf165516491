# Subtitle delivery and similar-album scoring, modelled in Dafny

This project models the decision and transformation logic of a media
server's subtitle encoder (`SubtitleEncoder`), along with two smaller pieces
of its music library: the `MusicAlbum` entity and the album-similarity code
of `AlbumsService`. All of it is written as pure functions over immutable
values. The one piece of state is the subtitle cache, a map from the path of
each file that exists to its text.

- `dotnet.dfy` (`DotNet`) holds the .NET behaviour the code relies on:
  - `Option` for `null`, and `Result` for thrown exceptions.
  - `long` wrap-around arithmetic.
  - Ordinal ignore-case comparison.
  - `String.IsNullOrEmpty` and `String.IsNullOrWhiteSpace`.
  - `TrimStart`, `Path.GetExtension` and `Path.Combine`, with Windows separators.
  - Invariant-culture integer formatting, with its parse round trip.
  - `String.Replace`.
- `track_filter.dfy` (`TrackFilter`): the time-window filter of a parsed track (`FilterEvents`).
- `formats.dfy` (`Formats`): the parser and writer registry (`GetReader`, `GetWriter`).
- `charset.dfy` (`Charset`):
  - The byte-order-mark sniff.
  - The charset decision for an external subtitle file.
  - The language-to-codepage table.
  - The `-sub_charenc` argument.
- `cache_path.dfy` (`CachePath`): the names of cached subtitle files.
- `ass_font.dfy` (`AssFont`): the Arial font fix-up applied to built files.
- `build.dfy` (`Build`): the build-once step that runs the external encoder:
  - The encoder's command line.
  - Classification of its exit.
  - Deletion of a partial output.
  - The cache as it evolves over repeated requests.
- `pipeline.dfy` (`Pipeline`):
  - `GetReadableFile`.
  - `GetSubtitleStream(path, requiresCharset)`.
  - `ConvertSubtitles`.
- `music_album.dfy` (`MusicAlbum`):
  - The album's artist lists.
  - The user-data key priority.
  - Index grouping.
- `albums_service.dfy` (`AlbumsService`):
  - The artist-overlap bonus of the album similarity score.
  - Paging of the ranked result.
  - The root searched for candidates.

Things outside the code become inputs:
- The media file's last-write time.
- The digest used for cache names.
- The charset detector's answer.
- What the encoder process did.
- The parsers.
- The ranking, base score and name de-duplication helpers.

### Behaviour as written

In each of these places the model follows the code, even where the
documented intent reads differently:

- **The filter's drop test uses `||`.** `FilterEvents` drops a leading cue
  when either its start or its end is before the window start. So a cue that
  is already showing at the window start is dropped when it heads the track.
  Only the leading run is checked; a later cue that lies wholly before the
  window survives.
- **Only -1 counts as failure.** An encoder run fails only when its observed
  exit code is -1 or its output file is missing. Any other non-zero exit
  code with the output present counts as success.
- **Conversion always gets the font fix-up.** Conversion to SubRip applies
  `SetAssFont` to its output unconditionally. Extraction applies it only for
  output codec "ass", and `GetReadableFile` never passes that codec.
- **Writers are json, srt, vtt and ttml.** There is no ass or ssa writer.
- **A path without an extension never falls back to the codec.**
  `Path.GetExtension` returns "" rather than `null` for an external
  subtitle file with no extension. The `?? codec` fallback is therefore
  skipped and the lookup throws `ArgumentNullException("format")`.

## Model

Paths below are relative to the repository root.

| member | source | states |
|---|---|---|
| TrackFilter.SkipLeading | MediaBrowser.MediaEncoding/Subtitles/SubtitleEncoder.cs:82-85 | the result is a suffix of the track; every dropped cue starts or ends before the window on `long` arithmetic, and the first survivor does neither (the longest such leading run) |
| TrackFilter.TakeUntil | MediaBrowser.MediaEncoding/Subtitles/SubtitleEncoder.cs:87-94 | the result is a prefix whose cues all start at or before the end bound, and the first cue left out starts after it |
| TrackFilter.Rebase | MediaBrowser.MediaEncoding/Subtitles/SubtitleEncoder.cs:96-103 | count is kept, moving each shifted cue back by the window start restores it exactly (even with wrap-around), and texts are untouched |
| TrackFilter.FilterEvents | MediaBrowser.MediaEncoding/Subtitles/SubtitleEncoder.cs:80-104 | the result has as many cues as the kept slice; with preserved timestamps it is that slice, otherwise moving it back by the window start gives that slice |
| TrackFilter.KeptIsSlice | MediaBrowser.MediaEncoding/Subtitles/SubtitleEncoder.cs:80-94 | the kept cues are one contiguous slice in original order, starting right after the longest leading run of earlier cues; nothing is cut at the tail without an end bound, and with one the slice stops before the first cue starting past it |
| TrackFilter.EarlierIsPlainComparison | MediaBrowser.MediaEncoding/Subtitles/SubtitleEncoder.cs:83-85 | without overflow, the drop test is "starts before or ends before the window start" |
| TrackFilter.NonNegativeTicksDoNotWrap | MediaBrowser.MediaEncoding/Subtitles/SubtitleEncoder.cs:83-85 | non-negative cue times and window start never make the subtraction overflow |
| TrackFilter.FirstKeptInWindow | MediaBrowser.MediaEncoding/Subtitles/SubtitleEncoder.cs:83-85 | the first surviving cue starts and ends at or after the window start |
| TrackFilter.StraddlingHeadIsDropped | MediaBrowser.MediaEncoding/Subtitles/SubtitleEncoder.cs:83-85 | a head cue that starts before the window start and ends at or after it is dropped |
| TrackFilter.OrderedTrackKeptInWindow | MediaBrowser.MediaEncoding/Subtitles/SubtitleEncoder.cs:83-94 | on a track sorted by start whose cues do not end before they start, every kept cue lies wholly at or after the window start |
| TrackFilter.LaterCuesAreNotRechecked | MediaBrowser.MediaEncoding/Subtitles/SubtitleEncoder.cs:83-85 | an out-of-order cue wholly before the window survives once an earlier cue was kept |
| TrackFilter.RebaseIsExact | MediaBrowser.MediaEncoding/Subtitles/SubtitleEncoder.cs:96-103 | without overflow each kept start and end drops by exactly the window start, with count, order and text unchanged |
| DotNet.Sub64 | MediaBrowser.MediaEncoding/Subtitles/SubtitleEncoder.cs:84 | `long` subtraction is exact when the difference fits, and otherwise off by exactly 2^64 |
| DotNet.SubThenAdd64 | MediaBrowser.MediaEncoding/Subtitles/SubtitleEncoder.cs:96-103 | adding back what wrap-around subtraction took away gives the original value |
| Formats.GetReader | MediaBrowser.MediaEncoding/Subtitles/SubtitleEncoder.cs:264-290 | "" throws `ArgumentNullException("format")`; a name matching srt, ssa or ass ignoring case gives a parser registered under it; any other name gives `null`, or `ArgumentException("Unsupported format: …")` when asked to throw |
| Formats.GetWriter | MediaBrowser.MediaEncoding/Subtitles/SubtitleEncoder.cs:292-317 | "" throws `ArgumentNullException("format")`; json, srt, vtt and ttml (any case) give their writer; any other name always throws `ArgumentException` |
| Formats.ReaderRoundTrip | MediaBrowser.MediaEncoding/Subtitles/SubtitleEncoder.cs:271-284 | every parser is found under its own name, regardless of the throw flag |
| Formats.WriterRoundTrip | MediaBrowser.MediaEncoding/Subtitles/SubtitleEncoder.cs:299-313 | every writer is found under its own name |
| Formats.ReaderIgnoresCase | MediaBrowser.MediaEncoding/Subtitles/SubtitleEncoder.cs:271-284 | two spellings equal ignoring case select the same parser and fail together |
| Formats.WriterIgnoresCase | MediaBrowser.MediaEncoding/Subtitles/SubtitleEncoder.cs:299-313 | two spellings equal ignoring case select the same writer and fail together |
| Formats.AssReadOnlyVttWriteOnly | MediaBrowser.MediaEncoding/Subtitles/SubtitleEncoder.cs:264-317 | ass has a parser but no writer; vtt has a writer but no parser |
| Charset.ReadBuffer | MediaBrowser.MediaEncoding/Subtitles/SubtitleEncoder.cs:802-808 | the sniffed buffer holds the file's first five bytes, zero-padded |
| Charset.GetFileEncoding | MediaBrowser.MediaEncoding/Subtitles/SubtitleEncoder.cs:800-821 | each answer holds exactly when the file starts with that mark (UTF-8 first, then FE FF, then 00 00 FE FF, then 2B 2F 76); zero padding of a short file never fakes a mark; no mark gives the default |
| Charset.GetSubtitleFileCharacterSet | MediaBrowser.MediaEncoding/Subtitles/SubtitleEncoder.cs:709-729 | "" is returned exactly for a file with a UTF-8 mark, and `null` for an unmarked file whose detector answer is blank or "utf-8" ignoring case; "nothing to convert" holds exactly when there is a UTF-8 mark, a blank detector answer, or an answer equal to "utf-8" ignoring case; otherwise the detector's non-blank, non-UTF-8 answer is returned |
| Charset.OnlyUtf8MarkMatters | MediaBrowser.MediaEncoding/Subtitles/SubtitleEncoder.cs:711-714 | a file without a UTF-8 mark is treated like an empty file, whatever other mark it carries |
| Charset.EncodingParameter | MediaBrowser.MediaEncoding/Subtitles/SubtitleEncoder.cs:385-390 | the argument is empty exactly when the charset is null or empty |
| Charset.CharacterSetFromLanguage | MediaBrowser.MediaEncoding/Subtitles/SubtitleEncoder.cs:731-770 | the table is total and always answers one of its codepage names |
| Charset.LanguageGroupsDisjoint | MediaBrowser.MediaEncoding/Subtitles/SubtitleEncoder.cs:733-768 | no language code appears under two codepages, so no case is shadowed |
| Charset.LanguageTableAgrees | MediaBrowser.MediaEncoding/Subtitles/SubtitleEncoder.cs:731-770 | a code, in any case, gets a non-default codepage exactly when that codepage lists it, and windows-1252 exactly when no codepage lists it |
| Charset.CodepageNamesDistinct | MediaBrowser.MediaEncoding/Subtitles/SubtitleEncoder.cs:733-768 | distinct codepages have distinct names |
| Charset.LanguageIgnoresCase | MediaBrowser.MediaEncoding/Subtitles/SubtitleEncoder.cs:733 | codes that differ only in (ASCII) case get the same codepage |
| DotNet.EqualsIgnoreCaseIffLower | MediaBrowser.MediaEncoding/Subtitles/SubtitleEncoder.cs:733 | ordinal ignore-case equality coincides with equality after lower-casing |
| DotNet.IntToStringRoundTrip | MediaBrowser.MediaEncoding/Subtitles/SubtitleEncoder.cs:697 | invariant formatting of an integer parses back to it |
| CachePath.SubtitleCachePath | MediaBrowser.MediaEncoding/Subtitles/SubtitleEncoder.cs:691-702 | naming throws exactly when digest plus extension is empty; otherwise the path ends with that file name |
| CachePath.CacheKeyLayout | MediaBrowser.MediaEncoding/Subtitles/SubtitleEncoder.cs:697 | the key starts with the media path and an underscore, and ends with an underscore and the invariant ticks, which read back as the same number |
| CachePath.CacheKeyInjective | MediaBrowser.MediaEncoding/Subtitles/SubtitleEncoder.cs:697 | the pre-digest key determines media path, stream index and ticks |
| CachePath.TicksChangeKey | MediaBrowser.MediaEncoding/Subtitles/SubtitleEncoder.cs:693-697 | changing only the modification time changes the key |
| CachePath.ShardedLayout | MediaBrowser.MediaEncoding/Subtitles/SubtitleEncoder.cs:691-702 | with a hex-shaped digest the file is `<cache>\subtitles\<first digest char>\<digest><ext>` |
| CachePath.TicksChangePath | MediaBrowser.MediaEncoding/Subtitles/SubtitleEncoder.cs:691-702 | with a digest that separates the two keys, a new modification time gives a new cache file |
| DotNet.ReplaceChangesIffContains | MediaBrowser.MediaEncoding/Subtitles/SubtitleEncoder.cs:680-682 | replacing by a text that differs somewhere changes the string exactly when the old text occurs in it |
| AssFont.SetAssFont | MediaBrowser.MediaEncoding/Subtitles/SubtitleEncoder.cs:666-689 | the file is rewritten exactly when ",Arial," occurs, with every non-overlapping occurrence replaced, and only with a different text |
| AssFont.TextAfter | MediaBrowser.MediaEncoding/Subtitles/SubtitleEncoder.cs:680-688 | the text afterwards is the replaced text, and equals the old one exactly when ",Arial," does not occur |
| AssFont.NotIdempotent | MediaBrowser.MediaEncoding/Subtitles/SubtitleEncoder.cs:680 | ",Arial,Arial," becomes ",Arial Unicode MS,Arial,", which a second pass rewrites again |
| Build.Classify | MediaBrowser.MediaEncoding/Subtitles/SubtitleEncoder.cs:456-482 | a run fails exactly when its code is -1 or the output is missing, and deletes the output exactly when the code is -1 |
| Build.ObservedExitCode | MediaBrowser.MediaEncoding/Subtitles/SubtitleEncoder.cs:432-456 | the code acted on is -1 exactly when the process did not exit within 60000 ms or itself returned -1, and otherwise is the process's own code |
| Build.Arguments | MediaBrowser.MediaEncoding/Subtitles/SubtitleEncoder.cs:403 | both command lines end with the quoted output path, and an extraction starts with "-i " and the input argument |
| Build.ExtractArgumentFields | MediaBrowser.MediaEncoding/Subtitles/SubtitleEncoder.cs:542-543 | in the extraction command the field after "-map 0:" reads back as the stream index and ends at a space, and "-c:s <codec>" comes just before the quoted output path |
| Build.Finished | MediaBrowser.MediaEncoding/Subtitles/SubtitleEncoder.cs:492 | the stored text is the encoder's output or its font fix-up, and differs from the output exactly when the job is a conversion or an "ass" extraction (any case) and the fix-up changes something |
| Build.FailureMessage | MediaBrowser.MediaEncoding/Subtitles/SubtitleEncoder.cs:486 | the message starts with the extraction or conversion prefix and names the input right after it; an extraction's message ends with the output path |
| Build.ConvertCharsetFlag | MediaBrowser.MediaEncoding/Subtitles/SubtitleEncoder.cs:385-403 | the conversion command carries " -sub_charenc <detected>" exactly when the input has no UTF-8 mark and the detector named a non-blank charset other than UTF-8 |
| Build.BuildInternal | MediaBrowser.MediaEncoding/Subtitles/SubtitleEncoder.cs:371-493 | the encoder is started exactly when both paths are non-empty and it can start; success exactly on a successful classification, storing the (fixed-up) output; every failure leaves the cache as it was; an empty input throws `ArgumentNullException("inputPath")`, an empty output path `ArgumentNullException("outputPath")`, a process that cannot start its start error, and a failed run `ApplicationException` with the failure message |
| Build.EnsureBuilt | MediaBrowser.MediaEncoding/Subtitles/SubtitleEncoder.cs:342-359 | an existing file is left alone with no process started; afterwards the call succeeded exactly when the file exists; failures change nothing; no other cache file is touched or lost |
| Build.TimeoutFails | MediaBrowser.MediaEncoding/Subtitles/SubtitleEncoder.cs:433-478 | a process that has not exited within the 60000 ms wait, whether it exits later or never, counts as exit code -1, fails and leaves no file, whatever its own code |
| Build.SecondRequestIsCached | MediaBrowser.MediaEncoding/Subtitles/SubtitleEncoder.cs:506-525 | after a successful build the next request starts nothing and changes nothing |
| Build.EnsureAll | MediaBrowser.MediaEncoding/Subtitles/SubtitleEncoder.cs:342-359 | a series of requests starts at most one process per request, and none when the file already exists |
| Build.BuildsOnce | MediaBrowser.MediaEncoding/Subtitles/SubtitleEncoder.cs:350-353 | when the first request builds the file, a whole series starts the encoder exactly once |
| Build.FailuresAreRetried | MediaBrowser.MediaEncoding/Subtitles/SubtitleEncoder.cs:462-491 | failed builds are not remembered: n failing runs start the encoder n times and leave no file |
| Pipeline.EmbeddedTarget | MediaBrowser.MediaEncoding/Subtitles/SubtitleEncoder.cs:205-229 | the format is ass exactly for an ass codec and srt otherwise; the codec is copy exactly for ass, subrip or srt (any case), and srt otherwise |
| Pipeline.ExtensionFormat | MediaBrowser.MediaEncoding/Subtitles/SubtitleEncoder.cs:239-240 | the format of a path is empty exactly when it has no extension, and otherwise a dot in front of it gives back the extension |
| Pipeline.CurrentFormat | MediaBrowser.MediaEncoding/Subtitles/SubtitleEncoder.cs:239-240 | only a stream with neither path nor codec throws `NullReferenceException`; with a path the format is its extension without the dot, "" when it has none; without one it is the codec minus its leading dots |
| DotNet.GetExtension | MediaBrowser.MediaEncoding/Subtitles/SubtitleEncoder.cs:239 | the extension is a dot plus at least one character that ends the path and contains no further dot or separator, and is "" exactly when the path has no such dot |
| DotNet.TrimStart | MediaBrowser.MediaEncoding/Subtitles/SubtitleEncoder.cs:239-240 | the result is a suffix, everything removed is the trimmed character, and it does not start with it |
| Pipeline.Extracted | MediaBrowser.MediaEncoding/Subtitles/SubtitleEncoder.cs:231-236 | an embedded stream succeeds exactly when its cache file exists afterwards, is handed on from the cache without a charset check, and an existing file is reused as is |
| Pipeline.Converted | MediaBrowser.MediaEncoding/Subtitles/SubtitleEncoder.cs:242-250 | an unparseable external file succeeds exactly when its ".srt" cache file exists afterwards, handed on as srt with a charset check |
| Pipeline.ExternalPlan | MediaBrowser.MediaEncoding/Subtitles/SubtitleEncoder.cs:239-252 | an external stream is used in place exactly when its format names a parser, and that format then has a parser that also satisfies the throwing lookup; it fails exactly when the format cannot be worked out or is empty |
| Pipeline.External | MediaBrowser.MediaEncoding/Subtitles/SubtitleEncoder.cs:239-252 | an external file is always handed on with a charset check and a format that has a parser; a path other than the file's own is the ".srt" cache file, now present; only a conversion can start a process or add to the cache |
| DotNet.TrimStartOne | MediaBrowser.MediaEncoding/Subtitles/SubtitleEncoder.cs:239-240 | trimming a single leading dot from an extension leaves the rest, and putting the dot back restores the extension |
| Pipeline.GetReadableFile | MediaBrowser.MediaEncoding/Subtitles/SubtitleEncoder.cs:199-253 | the format handed on always has a parser; charset checks are required exactly for external files; any path other than the stream's own is a file in the cache; cache files are never lost or changed; failures change nothing |
| Pipeline.ExtensionlessExternalFileThrows | MediaBrowser.MediaEncoding/Subtitles/SubtitleEncoder.cs:239-244 | an external file without an extension throws `ArgumentNullException("format")`, whatever its codec |
| Pipeline.ExternalFileUsedInPlace | MediaBrowser.MediaEncoding/Subtitles/SubtitleEncoder.cs:239-252 | an external file is used in place, with its extension as format and no process, exactly when that extension names a parser |
| Pipeline.ExtractedTextIsUntouched | MediaBrowser.MediaEncoding/Subtitles/SubtitleEncoder.cs:205-236 | an extracted file holds exactly what the encoder wrote: the font fix-up never runs on extraction |
| Pipeline.ExtractionStoresOutput | MediaBrowser.MediaEncoding/Subtitles/SubtitleEncoder.cs:205-236 | an extraction that started the encoder and succeeded stores exactly what the encoder wrote, since its codec is never "ass" |
| Pipeline.ConvertedTextIsFontFixed | MediaBrowser.MediaEncoding/Subtitles/SubtitleEncoder.cs:492 | a freshly converted file holds the encoder's output with the font fix-up applied |
| Pipeline.SecondRequestStartsNothing | MediaBrowser.MediaEncoding/Subtitles/SubtitleEncoder.cs:199-253 | once served, the same request again starts no process, keeps the cache and gives the same answer |
| Pipeline.SecondExternalRequest | MediaBrowser.MediaEncoding/Subtitles/SubtitleEncoder.cs:239-252 | for an external file, a second request after a served one starts no process, keeps the cache and gives the same answer |
| Pipeline.ConversionBuildsFontFixed | MediaBrowser.MediaEncoding/Subtitles/SubtitleEncoder.cs:242-250 | a conversion that started the encoder and succeeded stores the encoder's output with the font fix-up, under a ".srt" path that was not in the cache before |
| Pipeline.GetSubtitleStream | MediaBrowser.MediaEncoding/Subtitles/SubtitleEncoder.cs:157-180 | a null path fails; the file is re-read in another charset exactly when a check is required and names one, and that charset is the detector's non-blank, non-UTF-8 answer for a file without a UTF-8 mark |
| Pipeline.EmbeddedStreamsOpenRaw | MediaBrowser.MediaEncoding/Subtitles/SubtitleEncoder.cs:157-180 | an extracted embedded stream is always opened as it is |
| Pipeline.ConvertSubtitles | MediaBrowser.MediaEncoding/Subtitles/SubtitleEncoder.cs:51-78 | succeeds exactly when both formats are registered; a bad input format wins over a bad output format; the writer matches the output format; the events are the parsed track's kept slice with times rebased |
| MusicAlbum.NewAlbum | MediaBrowser.Controller/Entities/Audio/MusicAlbum.cs:19-24 | a new album has empty soundtrack, artist and album-artist lists |
| MusicAlbum.AllArtists | MediaBrowser.Controller/Entities/Audio/MusicAlbum.cs:42-53 | album artists then artists, every entry in order, length the sum, same multiset |
| MusicAlbum.AlbumArtist | MediaBrowser.Controller/Entities/Audio/MusicAlbum.cs:56-59 | the first album artist, `null` exactly when there is none |
| MusicAlbum.AlbumArtistLeadsAllArtists | MediaBrowser.Controller/Entities/Audio/MusicAlbum.cs:42-59 | the album artist heads `AllArtists`; a new album has neither |
| MusicAlbum.CreateUserDataKey | MediaBrowser.Controller/Entities/Audio/MusicAlbum.cs:129-146 | a non-blank release-group id wins, then a non-blank album id, then the base key |
| MusicAlbum.ReleaseGroupSharesUserData | MediaBrowser.Controller/Entities/Audio/MusicAlbum.cs:131-136 | albums with the same non-blank release-group id share a key whatever else differs |
| MusicAlbum.UserDataKeysDoNotCollide | MediaBrowser.Controller/Entities/Audio/MusicAlbum.cs:131-143 | a release-group key never equals an album-id key, and each key gives back its id |
| MusicAlbum.IndexContainer | MediaBrowser.Controller/Entities/Audio/MusicAlbum.cs:118-121 | the container is the parent exactly when the parent is an artist, else the shared unknown artist |
| MusicAlbum.OrphanAlbumsShareContainer | MediaBrowser.Controller/Entities/Audio/MusicAlbum.cs:85-121 | all albums without an artist parent share the "<Unknown>" container; albums are grouped, not indexed themselves |
| AlbumsService.MatchCount | MediaBrowser.Api/Music/AlbumsService.cs:143 | the count is at most the first list's length, zero exactly when no name matches, full exactly when every name matches |
| AlbumsService.MatchCountAppend | MediaBrowser.Api/Music/AlbumsService.cs:143 | the count distributes over concatenation of the first list |
| AlbumsService.MatchCountDependsOnMembership | MediaBrowser.Api/Music/AlbumsService.cs:138-143 | only the case-insensitive membership of the second list matters |
| AlbumsService.ArtistBonus | MediaBrowser.Api/Music/AlbumsService.cs:143 | the summing loop gives 5 per matched name, non-negative, at most 5 per name, a multiple of 5 |
| AlbumsService.AlbumSimilarityScore | MediaBrowser.Api/Music/AlbumsService.cs:126-144 | throws exactly when the second album's names collide ignoring case; otherwise base plus 5 per matched name, never below the base nor above base plus 5 per name of the first album |
| AlbumsService.NoArtistsNoBonus | MediaBrowser.Api/Music/AlbumsService.cs:133-143 | an empty name list on either side adds nothing; an empty second list never throws |
| AlbumsService.AlbumWithoutArtistsScoresBase | MediaBrowser.Api/Music/AlbumsService.cs:133-143 | with a de-duplication that keeps an empty list empty, an album with no artists on either side adds no bonus, and as the second album it gives exactly the base score |
| AlbumsService.ScoreIsNotSymmetric | MediaBrowser.Api/Music/AlbumsService.cs:133-143 | names "a","A" against "a" score 10, while the reverse throws; this needs a `distinctNames` that keeps "a" and "A" apart, and if the real `DistinctNames` merges them ignoring case the throw is unreachable |
| AlbumsService.Take | MediaBrowser.Api/Music/AlbumsService.cs:103 | a prefix of length min(n, count), empty for n at most 0 |
| AlbumsService.Page | MediaBrowser.Api/Music/AlbumsService.cs:99-112 | the items are a prefix of the ranked list, all of it without a limit, exactly min(limit, count) items with one (none for a limit below one), while the total is always the full count |
| AlbumsService.PagesConcatenate | MediaBrowser.Api/Music/AlbumsService.cs:101-104 | a page of n followed by the next page of m is the page of n + m |
| AlbumsService.SimilarTo | MediaBrowser.Api/Music/AlbumsService.cs:89-91 | an item id wins and is the one requested; otherwise the root of the requesting user, and the library root exactly when neither id is usable |
| AlbumsService.SearchRootAsWritten | MediaBrowser.Api/Music/AlbumsService.cs:93 | throws `NullReferenceException` exactly when the user id is blank |
| AlbumsService.SearchRoot | MediaBrowser.Api/Music/AlbumsService.cs:87-93 | the library root exactly when the user id is blank, otherwise that user's root |
| AlbumsService.SearchRootFinding | MediaBrowser.Api/Music/AlbumsService.cs:87-93 | without a user id the code as written throws where the fallback searches the library; with one they agree, and the searched root is the subject's root when no item id is given |
| AlbumsService.GetSimilarItemsResult | MediaBrowser.Api/Music/AlbumsService.cs:85-116 | the total counts every ranked item and the items are a prefix of them: all without a limit, exactly min(limit, count) with one |
| AlbumsService.GetSimilarItemsResultAsWritten | MediaBrowser.Api/Music/AlbumsService.cs:85-116 | throws exactly when the user id is blank, and otherwise agrees with the corrected result |

## Left out

- Process spawning, the "q" sent on time-out, the 1000 ms grace wait and the log files are operating-system I/O. A `ProcessRun` value states what the caller observes instead.
- The per-path semaphores and async cancellation are concurrency. Calls are modelled as sequential.
- `GetMD5`, a string extension defined outside `SubtitleEncoder`, is not modelled. The digest is a function parameter.
- The charset detector (`DetectCharset`, including its `IOException` fallback to `null`) is foreign code. Its answer is an input.
- `GetEncoding` and `Encoding.GetEncoding` with the dash-stripping fallback are foreign encoding code, as is decoding with `StreamReader`. Only the charset name is modelled.
- `Directory.CreateDirectory` on the output directory is file-system I/O and not modelled.
- Library, media-source and disc lookups in `GetSubtitles` and `GetSubtitleStream(itemId, …)` are not modelled. Neither is the encoder's input argument (`GetInputArgument`), which is an input. Stream disposal is also left out.
- The parser and writer classes are not modelled. Parsing is a function parameter, and writing is represented by the chosen writer.
- Route handlers, DTO building, `SimilarItemsHelper` scoring and ranking, `DistinctNames` and `GetUserById` lie outside the modelled code. They become parameters, or a found user is taken for granted.
- `MusicAlbum`'s `Tracks`, `MusicArtist`, `SupportsAddingToPlaylist`, `GetBlockUnratedValue` and `GetLookupInfo` are tree traversal and user-policy code. They are not modelled.
- `SubtitleFormat`'s constants are taken to be "srt", "ssa", "ass", "vtt" and "ttml".
- Build.EnsureBuilt: treats deleting a partial output as always succeeding. In `ExtractTextSubtitleInternal` and `ConvertTextSubtitleToSrtInternal` an `IOException` on that delete is logged and the file may stay on disk.
- Build.ObservedExitCode: a process that exits within the wait is taken to report its code. The 1000 ms grace period after "q" has no effect on the result and is not modelled.
- Charset.GetFileEncoding: assumes one read returns min(5, length) bytes. A missing file, on which `GetFileEncoding` throws, is not modelled.
- Charset.CharacterSetFromLanguage: lower-cases ASCII letters only. The C# `ToLower` is culture-sensitive, and a `null` language throws there.
- DotNet.EqualsIgnoreCase: folds ASCII letters only, where ordinal ignore-case also folds other letters.
- DotNet.GetExtension: does not model the `ArgumentException` .NET Framework throws for invalid path characters.
- DotNet.GetExtension: assumes Windows path rules, with `\` and `/` as separators and `:` as the volume separator; `DotNet.Combine` and `CachePath.ShardedLayout` share the assumption. Under Mono on Linux `\` and `:` are ordinary file-name characters.
- Charset.GetFileEncoding: assumes `Encoding.Default` is not UTF-8, so `SystemDefault` never counts as a UTF-8 mark.
- Pipeline.GetSubtitleStream: only a `null` path fails. An unreadable file or an unknown charset name, on which the C# code throws, are not modelled.
- AlbumsService.AlbumSimilarityScore: takes both items to be albums. `GetAlbumSimilarityScore` casts both with `(MusicAlbum)` at AlbumsService.cs lines 130-131, and the route filters only the candidates (line 79), so a request for an item that is not an album throws `InvalidCastException` there; that throw is not modelled.
- AlbumsService.AlbumSimilarityScore: uses unbounded integers. The C# `Sum` is checked and throws `OverflowException` past 2^31 - 1, and the addition to the base score wraps.
- MusicAlbum.IndexContainer: the shared "<Unknown>" artist object is a distinct constructor, not an object reference.
- TrackFilter.FilterEvents: returns new events. `FilterEvents` in C# mutates the caller's event objects in place.

## Findings

| source | as written | input that shows it | evidently intended | confidence | as-written member | corrected member |
|---|---|---|---|---|---|---|
| MediaBrowser.Api/Music/AlbumsService.cs:93 | the candidate items are read from `user.RootFolder`, while `user` is `null` whenever the request has no user id (line 87) | a similar-items request whose `UserId` is null or blank | search the library root when there is no user, as the subject selection at lines 89-91 already does | medium, not executed | AlbumsService.SearchRootAsWritten | AlbumsService.SearchRoot |
