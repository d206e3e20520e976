# LuminaPlayer core, modelled in Dafny

LuminaPlayer is a music player with three front ends: a web build, an Electron
desktop shell and a Tauri desktop shell. This project models the logic those
front ends share, and proves properties of it:

- **Playback queue** (`app/hooks/useAudio.ts`): the format label of a file,
  the initial title/artist/album label of a queue entry, and the
  "next" / "previous" / "select" transitions. These cover repeat-one,
  repeat-all, the shuffle redraw loop and the three-second rewind rule
  (`use_audio.dfy`, class `UseAudio.Player`).
- **Library grouping** (`app/hooks/useLibrary.ts`): `toTitleCase`, and the
  `albums` and `artists` computations. Each runs a `forEach` pass that fills
  insertion-ordered maps, then an album-count pass, then a sort by name
  (`use_library.dfy`).
- **Lyrics matching** (`services/geminiService.ts`): `findBestMatch` with its
  normalisation and scores, `parsePlainLyrics` and `cleanSearchTerm`
  (`gemini_service.dfy`).
- **Colour handling** (`services/colorService.ts`): `adjustBrightness` and the
  bounded darkening loop of `ensureDarkColor` (`color_service.dfy`).
- **Web metadata reader** (`services/metadataService.ts`): title and artist
  read from the file name (`metadata_service.dfy`).
- **Electron back end** (`electron/main.cjs`):
  - the configuration-file IPC handlers;
  - the MIME table;
  - `get-file-info`, with its lazy `^(.+?)\s*-\s*(.+)$` expression;
  - the tag merge of `extract-metadata`.

  These are in `electron_main.dfy`, class `ElectronMain.ConfigFile`.
- **Tauri back end** (`src-tauri/src/lib.rs`): the MIME type, the stem parse,
  the folder listing and the persisted `AppConfig` commands (`tauri_lib.dfy`,
  class `TauriLib.ConfigStore`).
- **LDAC encoder stub** (`native/ldac/src/ldacBT.c`): the handle, the
  configuration, the frame-size table, the header bytes, the analysis windows
  and the bitrate. It works on arrays (`ldac_bt.dfy`, class `LdacBT.Handle`).
- **JavaScript LDAC port** (`native/ldac/ldacJS.js`): the frame size, the
  header, sample de-interleaving into the two windows, the payload and the
  self check (`ldac_js.dfy`, class `LdacJS.Encoder`).

The shared modules are:

- `text.dfy`: JavaScript and Rust string primitives (trim with each
  language's whitespace, `split`, `indexOf`, `basename`, the extension-stripping
  expression, ASCII case).
- `sorting.dfy`: the stable insertion sort by key, standing for
  `Array.prototype.sort` with `localeCompare` and for Rust's `sort`.
- `json.dfy`: the JSON values stored in configuration files.
- `wrappers.dfy`: `Option` and `Result`.

Side effects are parameters:

- A configuration write has a `writeFails` flag (Electron) or a `writeError`
  (Tauri).
- `fs.statSync` appears as an optional size.
- The tag reader's outcome appears as an optional tag record.
- The random source appears as a sequence of draws.
- The audio element appears as `hasAudio` and `audioTime`.
- The MDCT coefficients appear as a `coef` or `quant` function.

## Model

| member | source | states |
|---|---|---|
| UseAudio.Extension | app/hooks/useAudio.ts:37 | The extension is a dot-free suffix of the name, preceded by a dot unless it is the whole name. |
| UseAudio.FormatTableIsUpper | app/hooks/useAudio.ts:38-49 | Every label in the format table is its key upper-cased. |
| UseAudio.GetAudioFormatOf | app/hooks/useAudio.ts:36-51 | For `stem.ext` the label is the table entry of the lower-cased extension, and otherwise the extension upper-cased. |
| UseAudio.GetAudioFormatIsUpperExtension | app/hooks/useAudio.ts:36-51 | The label always equals the extension upper-cased, so it has no lower-case letter. |
| UseAudio.InitialLabelFromName | app/hooks/useAudio.ts:93-101 | Without cached metadata the artist is the title-cased trimmed text before the first " - ". The title is the title-cased rest, later separators included. Without a separator the title is the title-cased base name. |
| UseAudio.InitialLabelFromMetadata | app/hooks/useAudio.ts:64-92 | With cached metadata each non-empty field wins. Otherwise a field falls back to the shell's report, the base name, "Unknown Artist" or "Unknown Album". |
| UseAudio.FirstAcceptedSpec | app/hooks/useAudio.ts:233-235 | The shuffle loop settles on a draw that is in range. That draw differs from the current track when there are others, and every earlier draw was the current track. |
| UseAudio.Player.constructor | app/hooks/useAudio.ts:18-26 | The player starts with the given song state and audio element. |
| UseAudio.Player.SongSelect | app/hooks/useAudio.ts:201-207 | The new state is the `Choose` action applied to the old one. A queue item without a URL leaves the state unchanged. |
| UseAudio.Player.ReplayCurrent | app/hooks/useAudio.ts:254-264 | The new state is the `Replay` action: the audio is rewound and playing when there is an audio element, and nothing changes otherwise. |
| UseAudio.Player.DrawShuffle | app/hooks/useAudio.ts:233-235 | The `do … while` loop returns exactly the first accepted draw. |
| UseAudio.Player.PlayNext | app/hooks/useAudio.ts:209-268 | The new state is the `NextAction` transition, taken with the shuffle loop's pick. |
| UseAudio.Player.PlayPrevious | app/hooks/useAudio.ts:270-282 | The new state is the `PreviousAction` transition. |
| UseAudio.PerformKeepsSettings | app/hooks/useAudio.ts:209-282 | No action changes shuffle, repeat mode, playlist size or the presence of the audio element. |
| UseAudio.NextOnEmptyQueue | app/hooks/useAudio.ts:211 | "Next" on an empty queue changes nothing. |
| UseAudio.NextRepeatOne | app/hooks/useAudio.ts:214-226 | With repeat one the track stays. With an audio element the time goes to 0 and playback is on; without one nothing changes. |
| UseAudio.NextInSequence | app/hooks/useAudio.ts:238-250 | Without shuffle, "next" selects the following track. Past the end, repeat-all goes to track 0 (a replay when that is current) and any other mode halts. |
| UseAudio.NextShuffled | app/hooks/useAudio.ts:231-235 | With shuffle the pick is in range and differs from the current track when there are other tracks, and it is selected. A one-track queue replays or selects 0. |
| UseAudio.NextNeverReselects | app/hooks/useAudio.ts:252-267 | A selection made by "next" is never the current track and is below the queue length. It is non-negative for sane inputs. |
| UseAudio.SelectInQueue | app/hooks/useAudio.ts:201-203 | Selecting an in-range index whose item yields a URL makes it current and playing from time 0. Any other in-range index changes nothing. |
| UseAudio.SelectOutsideQueue | app/hooks/useAudio.ts:204-206 | An index past the queue but inside the song state's own playlist starts that track. An index outside both changes nothing. |
| UseAudio.PreviousRewinds | app/hooks/useAudio.ts:271-272 | More than 3 s into a track, "previous" only rewinds. |
| UseAudio.PreviousSelects | app/hooks/useAudio.ts:276-280 | Otherwise "previous" selects the index before the current one, wrapping from 0 to the last track. For an in-range current index the target is in range. |
| UseLibrary.TitleFrom | app/hooks/useLibrary.ts:27-32 | `/\w\S*/g` title-casing from position `i` keeps the length (outside a word). |
| UseLibrary.LowerRun | app/hooks/useLibrary.ts:27-32 | The lower-casing run inside a word keeps the length too. |
| UseLibrary.TitleFromAt | app/hooks/useLibrary.ts:27-32 | Outside a word, title-casing from `i` changes each later character as the reference definition says. |
| UseLibrary.LowerRunAt | app/hooks/useLibrary.ts:27-32 | Inside a word, the run from `k` changes each later character as the reference definition says. |
| UseLibrary.TitleCaseAt | app/hooks/useLibrary.ts:27-32 | Each character is changed exactly as the reference definition says: upper at a word start, lower inside a word, unchanged elsewhere. |
| UseLibrary.TitleCaseIdempotent | app/hooks/useLibrary.ts:27-32 | Title-casing twice is title-casing once. |
| UseLibrary.TitleCaseLower | app/hooks/useLibrary.ts:27-32 | Title-casing changes only letter case. |
| UseLibrary.TitleCaseNoLetters | app/hooks/useLibrary.ts:27-32 | Text without ASCII letters is unchanged. |
| UseLibrary.IndicesWithSpec | app/hooks/useLibrary.ts:182-198 | The index list of a key holds exactly the items below `n` with that key, in strictly increasing order. |
| UseLibrary.KeysOfSpec | app/hooks/useLibrary.ts:180-198 | A key is in the insertion order exactly when some item with metadata has it. |
| UseLibrary.KeysOfDistinct | app/hooks/useLibrary.ts:180-198 | No key is inserted twice. |
| UseLibrary.KeysOfCover | app/hooks/useLibrary.ts:180-198 | The key of every item with metadata is listed. |
| UseLibrary.IndexTotalCounts | app/hooks/useLibrary.ts:182-198 | Over distinct, covering keys, the index lists together count every item with metadata once. |
| UseLibrary.AlbumsCollectedSkip | app/hooks/useLibrary.ts:183 | An item without metadata leaves the map and the insertion order as they were. |
| UseLibrary.AlbumsCollectedPush | app/hooks/useLibrary.ts:188-189 | A track of a recorded album is appended to that album's indices. The map invariant is kept. |
| UseLibrary.AlbumsCollectedNew | app/hooks/useLibrary.ts:190-197 | A new key records an album made from that one track, at the end of the insertion order. |
| UseLibrary.AddAlbumTrack | app/hooks/useLibrary.ts:182-198 | One callback keeps the invariant: the map holds, for each key, the album of the items seen so far. |
| UseLibrary.CollectAlbums | app/hooks/useLibrary.ts:180-198 | After the pass the map holds, for each key in insertion order, the album of all items with that key. |
| UseLibrary.AlbumValues | app/hooks/useLibrary.ts:200 | The map's values, in insertion order, are the reference album list. |
| UseLibrary.GroupAlbums | app/hooks/useLibrary.ts:179-203 | The computation returns the reference albums: the grouping sorted by name. |
| UseLibrary.AlbumsByAlbum | app/hooks/useLibrary.ts:186-197 | Each album holds, increasing, the indices of exactly the items sharing its first track's key. Its name, artist and cover come from that track. |
| UseLibrary.AlbumsByPartition | app/hooks/useLibrary.ts:182-198 | An item lies in some album exactly when it has metadata, and then in only one. |
| UseLibrary.AlbumsBySorted | app/hooks/useLibrary.ts:200-202 | Albums come sorted by name. |
| UseLibrary.AlbumsByTotal | app/hooks/useLibrary.ts:179-203 | The track counts sum to the number of items with metadata. |
| UseLibrary.AlbumsMatchTracks | app/hooks/useLibrary.ts:184-186 | Grouped by the (album, artist) pair, every track of an album has that album's name and artist. |
| UseLibrary.JoinedKeyCollides | app/hooks/useLibrary.ts:186 | Album `p__q` by `r` and album `p` by `q__r` share the joined key but not the pair. |
| UseLibrary.SharedKeyOneAlbum | app/hooks/useLibrary.ts:186-197 | Two items with the same joined key end up in one album named after the first. |
| UseLibrary.AlbumKeyCollision | app/hooks/useLibrary.ts:186 | As written, a track lands in an album whose artist is not its own. |
| UseLibrary.AlbumNamesHas | app/hooks/useLibrary.ts:216-218 | Every track's album name is in the artist's album set. |
| UseLibrary.AlbumNamesOnly | app/hooks/useLibrary.ts:216-228 | Every member of the album set is some track's album name. |
| UseLibrary.ArtistEntryKept | app/hooks/useLibrary.ts:214-215 | An entry whose artist the item does not have stays as it was. |
| UseLibrary.ArtistEntryPush | app/hooks/useLibrary.ts:214-218 | The entry of the item's artist gains the track and the album name. |
| UseLibrary.ArtistsCollectedSkip | app/hooks/useLibrary.ts:211 | An item without metadata leaves both maps as they were. |
| UseLibrary.ArtistsCollectedPush | app/hooks/useLibrary.ts:214-218 | A track of a recorded artist is appended to its indices and its album name added to its set. The invariant is kept. |
| UseLibrary.ArtistsCollectedNew | app/hooks/useLibrary.ts:219-229 | A new artist is recorded with one track, `albumCount` 1 and a one-name album set. |
| UseLibrary.ArtistEntryNew | app/hooks/useLibrary.ts:219-229 | The first track of an artist gives an entry with that one track, its cover, `albumCount` 1 and its album name. |
| UseLibrary.AddArtistTrack | app/hooks/useLibrary.ts:210-231 | One callback keeps the two-map invariant. |
| UseLibrary.CollectArtists | app/hooks/useLibrary.ts:207-231 | After the pass both maps describe, per artist in insertion order, its tracks and album names. |
| UseLibrary.WithAlbumCount | app/hooks/useLibrary.ts:235 | Filling in the count gives at least 1 and keeps name, cover and tracks. |
| UseLibrary.ArtistEntryCounted | app/hooks/useLibrary.ts:234-236 | Filling in the count of a collected entry gives the reference artist of its tracks. |
| UseLibrary.CollectedCounts | app/hooks/useLibrary.ts:210-236 | The collected names are distinct and non-empty, and counting their albums gives the reference artists. |
| UseLibrary.UpdateAlbumCounts | app/hooks/useLibrary.ts:233-236 | Every artist gets `albumCount` = size of its album set, or 1. The domain is unchanged and nothing else changes. |
| UseLibrary.ArtistValues | app/hooks/useLibrary.ts:238 | The map's values in insertion order are the reference artist list. |
| UseLibrary.GroupArtists | app/hooks/useLibrary.ts:206-241 | The computation returns the reference artists, sorted by name. |
| UseLibrary.ArtistsArtist | app/hooks/useLibrary.ts:212-236 | Each artist holds, increasing, exactly the items with its title-cased name. Its cover comes from its first track, and its count is the number of distinct album names, or 1. |
| UseLibrary.ArtistAlbumNames | app/hooks/useLibrary.ts:216-228 | An artist's album set is exactly the album names of its items. |
| UseLibrary.ArtistsPartition | app/hooks/useLibrary.ts:210-231 | An item lies in some artist exactly when it has metadata, and then in only one. |
| UseLibrary.ArtistsNamesUnique | app/hooks/useLibrary.ts:207-231 | No two artists share a name. |
| UseLibrary.ArtistsSorted | app/hooks/useLibrary.ts:238-240 | Artists come sorted by name. |
| UseLibrary.ArtistsTotal | app/hooks/useLibrary.ts:206-241 | The artists' track counts sum to the number of items with metadata. |
| GeminiService.LazyClose | services/geminiService.ts:138 | `.*?` followed by the closing bracket matches up to its first occurrence before any line terminator. |
| GeminiService.MatchAt | services/geminiService.ts:124-125 | A match of a pattern at a position stays within the text. |
| GeminiService.ReplaceAllNoMatch | services/geminiService.ts:137-141 | Where an expression matches nowhere, replacing leaves the text as it is. |
| GeminiService.TagsNeedBracket | services/geminiService.ts:124-125 | A timestamp tag starts with `[`. |
| GeminiService.FeaturingShadowed | services/geminiService.ts:139 | `featuring` is never removed whole: `feat` matches first. |
| GeminiService.CollapseSpacesShape | services/geminiService.ts:141 | After `/\s+/g → " "` whitespace comes one plain space at a time. |
| GeminiService.CleanSearchTermShape | services/geminiService.ts:136-143 | The cleaned term has no outer whitespace, no double whitespace and no whitespace other than a plain space. |
| GeminiService.TrimKeepsSpacing | services/geminiService.ts:142 | Trimming text whose whitespace is single plain spaces keeps it so, and leaves no whitespace at the ends. |
| GeminiService.CleanLine | services/geminiService.ts:123-126 | A cleaned line has no outer whitespace. |
| GeminiService.ParsePlainLyrics | services/geminiService.ts:115-133 | The loop returns exactly the non-empty cleaned lines, in order. |
| GeminiService.NonEmptyStep | services/geminiService.ts:127-129 | One more line extends the filtered prefix by that line exactly when it is not empty. |
| GeminiService.NonEmptyMembers | services/geminiService.ts:127-129 | What survives the filter is exactly the non-empty texts. |
| GeminiService.PlainLyricsCount | services/geminiService.ts:116-118 | The empty text yields no lines, and there are never more lines than the text has. |
| GeminiService.PlainLyricsTrimmed | services/geminiService.ts:123-129 | Every resulting line is non-empty and trimmed. |
| GeminiService.PlainLyricsMembers | services/geminiService.ts:118-130 | The result's members are exactly the non-empty cleaned lines. |
| GeminiService.CleanUntaggedLine | services/geminiService.ts:123-126 | A line without `[` is only trimmed. |
| GeminiService.CleanTaggedLine | services/geminiService.ts:124 | A leading `[mm:ss.xx]` tag is removed and the rest trimmed. |
| GeminiService.KeepOnly | services/geminiService.ts:67 | The filtered text has only word, whitespace, CJK and Hangul characters, and is no longer than the input. |
| GeminiService.NormalizeStrChars | services/geminiService.ts:64-68 | A normalised string has only allowed, non-upper-case characters. |
| GeminiService.NormalizeStrTrimmed | services/geminiService.ts:64-68 | A normalised string has no outer whitespace. |
| GeminiService.ArtistScore | services/geminiService.ts:82-89 | The artist part is 100 on an exact match, 50 on containment either way, and 0 otherwise. |
| GeminiService.TitleScore | services/geminiService.ts:92-99 | The title part is 50 on an exact match, 25 on containment either way, and 0 otherwise. |
| GeminiService.PairScoreThreshold | services/geminiService.ts:79-107 | A score reaches 50 exactly when the artist matches at least partly or the title exactly. |
| GeminiService.Scored | services/geminiService.ts:73-103 | Every scored entry carries its candidate's own score, and the candidate has lyrics and a positive score. |
| GeminiService.InsertByScore | services/geminiService.ts:104 | Insertion adds one entry. The new head is the old head unless the inserted entry scores strictly higher. |
| GeminiService.SortByScore | services/geminiService.ts:104 | The descending sort keeps the length. Its head is covered by `SortedHead`. |
| GeminiService.BestIndex | services/geminiService.ts:73-108 | The reference winner is the first eligible result with the highest score. |
| GeminiService.SortedHead | services/geminiService.ts:104-108 | The head of the sorted list is the reference winner. |
| GeminiService.FindBestMatchIsBest | services/geminiService.ts:57-112 | `findBestMatch` returns the reference winner when its score is at least 50, and null otherwise or for a missing or empty list. |
| GeminiService.BestIndexUnique | services/geminiService.ts:104-108 | The first maximal index is unique. |
| GeminiService.BestIndexReaches | services/geminiService.ts:107 | Some eligible result reaches a threshold exactly when the winner does. |
| GeminiService.FindBestMatchSome | services/geminiService.ts:62-111 | A result is returned exactly when some result with lyrics scores at least 50. |
| ColorService.HexDigits | services/colorService.ts:70-72 | `toString(16)` of a natural number has at least one digit. |
| ColorService.Hex2OfByte | services/colorService.ts:70-72 | A byte formats as two lower-case digits, high digit first. |
| ColorService.Hex2Length | services/colorService.ts:70-72 | A channel in -15..255 formats as two characters; a negative one as `-` and a digit. |
| ColorService.ParseHex2 | services/colorService.ts:58-60 | `parseInt(·,16)` reads back what `toString(16)` wrote, for a byte. |
| ColorService.ParseIntHexRange | services/colorService.ts:58-60 | A slice of at most two characters parses to a value in -15..255, or NaN. |
| ColorService.StripHash | services/colorService.ts:51 | Leading whitespace goes only together with a `#` after it; trailing whitespace always goes. |
| ColorService.DoubleChars | services/colorService.ts:54-56 | On a single line the doubled text is twice as long as the input. |
| ColorService.DoubleCharsAt | services/colorService.ts:54-56 | On a single line, positions 2i and 2i+1 of the doubled text both hold character i. |
| ColorService.ShortCodeExpands | services/colorService.ts:54-56 | A three-digit code stands for the six-digit code with every digit doubled. |
| ColorService.ChannelsOfFormat | services/colorService.ts:58-73 | Parsing a formatted colour gives back its channels. |
| ColorService.AdjustedChannels | services/colorService.ts:64-73 | The adjusted colour is a lower-case `#rrggbb` that parses back to the clamped channels. |
| ColorService.AdjustBrightnessFailure | services/colorService.ts:62 | On a parse failure the result is `#000000`. |
| ColorService.AdjustBrightnessParsed | services/colorService.ts:49-74 | On parsed channels the result is a colour whose channels are the parsed ones moved by `floor(255·percent)` and clamped to 0..255. |
| ColorService.AdjustBrightnessZero | services/colorService.ts:49-74 | A zero adjustment returns a lower-case colour unchanged. |
| ColorService.AdjustBrightnessDirection | services/colorService.ts:64-67 | Brightening never darkens a channel, and darkening never brightens one. |
| ColorService.DarkenIsFloor | services/colorService.ts:101-103 | The integer step equals the floor of `c × 0.8`. |
| ColorService.EnsureDarkColor | services/colorService.ts:80-111 | The method returns dark grey on a parse failure and otherwise the channels the bounded loop leaves. |
| ColorService.DarkenLoop | services/colorService.ts:97-107 | The loop ends with the channels after the number of steps it takes: all 10, or fewer when one step makes the colour dark enough. |
| ColorService.DarkenStepsBounds | services/colorService.ts:97-107 | Channels stay in -15..255. A non-negative channel never rises and never drops below 0. |
| ColorService.DarkenStepsStops | services/colorService.ts:97-107 | The loop stops dark enough, or after all of its steps. |
| ColorService.DarkColourShape | services/colorService.ts:80-111 | The result has seven characters starting with `#`, and is dark grey on a parse failure. |
| ColorService.DarkColourKeepsDark | services/colorService.ts:93-110 | A colour already dark enough is returned unchanged. |
| ColorService.DarkColourOfColour | services/colorService.ts:80-111 | From a real colour the result is a real colour, no brighter in any channel. |
| ColorService.DarkColourSignedChannels | services/colorService.ts:87-110 | As written, `#-d-d-d` has negative luminance, so under a non-negative threshold it comes back as `#-d-d-d`, which is not a colour. |
| ColorService.SignedCode | services/colorService.ts:87-110 | `#-d-d-d` parses to three channels of minus `d`, and formatting them gives `#-d-d-d` back. |
| ColorService.DarkColourFixedPoint | services/colorService.ts:87-110 | Text whose channels are all negative and that is its own formatting is returned unchanged, and is not a colour. |
| ColorService.DarkColourMinusF | services/colorService.ts:80-111 | `ensureDarkColor("#-f-f-f")` returns `#-f-f-f`. |
| ColorService.DarkColourCheckedIsColour | services/colorService.ts:80-111 | With the sign check the result is always a lower-case `#rrggbb` colour. |
| ColorService.DarkColourCheckedAgrees | services/colorService.ts:80-111 | On non-negative channels the checked version agrees with `ensureDarkColor`. |
| MetadataService.Parts | services/metadataService.ts:8-9 | There is always at least one part. |
| MetadataService.PartsOf | services/metadataService.ts:8-9 | The first part is the trimmed base name up to its first `-`. The second is the trimmed text from there up to the next `-`. |
| MetadataService.FromPartsCases | services/metadataService.ts:12-19 | With a non-empty second part the title is that part and the artist is the first part, or "UNKNOWN ARTIST" for a number. Otherwise the title is the first part, by "UNKNOWN ARTIST". |
| MetadataService.FromPartsFirstTwo | services/metadataService.ts:12-19 | Parts after the second are ignored. |
| MetadataService.FromPartsShape | services/metadataService.ts:12-26 | Title and artist are upper case, the album is "Unknown Album" and there is no cover. |
| MetadataService.ExtractMetadataShape | services/metadataService.ts:5-28 | Every name gets upper-case title and artist, "Unknown Album" and no cover. |
| TauriLib.GetMimeTypeCases | src-tauri/src/lib.rs:73-84 | Case is ignored. A listed extension gives its type; anything else gives "audio/mpeg". |
| TauriLib.GetMimeTypeIsAudio | src-tauri/src/lib.rs:73-84 | Every type given is an `audio/` type. |
| TauriLib.ParseFileStemSplit | src-tauri/src/lib.rs:183-195 | At the first " - " the title is the trimmed rest. The artist is the trimmed part before it, or "Unknown Artist" when that is all digits. |
| TauriLib.ParseFileStemWhole | src-tauri/src/lib.rs:183-195 | A stem without the separator is the title, by "Unknown Artist". |
| TauriLib.ParseFileStemArtist | src-tauri/src/lib.rs:183-195 | The artist is "Unknown Artist" or a non-empty, unpadded name that is not a number. |
| TauriLib.PathExtension | src-tauri/src/lib.rs:136-142 | The extension, when there is one, has no dot. |
| TauriLib.AudioEntries | src-tauri/src/lib.rs:136-142 | Every kept entry has an audio extension. |
| TauriLib.AudioEntriesCount | src-tauri/src/lib.rs:136-142 | Each audio entry is kept as often as it occurs, and others are dropped. |
| TauriLib.FolderListingSpec | src-tauri/src/lib.rs:131-146 | The listing is sorted and holds exactly the audio entries, with their multiplicities. |
| TauriLib.AudioExtensionsHaveMime | src-tauri/src/lib.rs:73-84 | Every extension the listing keeps has its own MIME type. |
| TauriLib.ConfigStore.constructor | src-tauri/src/lib.rs:55-65 | Without a file the configuration is the default. |
| TauriLib.ConfigStore.GetApiKey | src-tauri/src/lib.rs:207-210 | The result is the key, or "" when none is set. |
| TauriLib.ConfigStore.HasApiKey | src-tauri/src/lib.rs:220-223 | The result is true exactly when a key is set. |
| TauriLib.ConfigStore.GetPlaylist | src-tauri/src/lib.rs:235-238 | The result is the saved items, or none. |
| TauriLib.ConfigStore.GetCurrentIndex | src-tauri/src/lib.rs:248-251 | The result is the saved index, or -1. |
| TauriLib.ConfigStore.Save | src-tauri/src/lib.rs:67-71 | A successful write stores the configuration and answers true. A failed one reports the error and leaves the file as it was. |
| TauriLib.ConfigStore.SetApiKey | src-tauri/src/lib.rs:212-218 | Only the key changes on success, and nothing changes on an error. |
| TauriLib.ConfigStore.SavePlaylist | src-tauri/src/lib.rs:227-233 | Only the playlist changes on success, and nothing changes on an error. |
| TauriLib.ConfigStore.SaveCurrentIndex | src-tauri/src/lib.rs:240-246 | Only the index changes on success, and nothing changes on an error. |
| TauriLib.SavesCommute | src-tauri/src/lib.rs:212-246 | Two stores holding the same file agree after successful saves of the key, the playlist and the index in opposite orders, and each ends with exactly those three fields replaced. |
| ElectronMain.ConfigFile.constructor | electron/main.cjs:9-18 | A first start has no configuration file. |
| ElectronMain.ConfigFile.SetField | electron/main.cjs:20-26 | The key is set in the parsed configuration and written back. A failed write leaves the file, and the handler answers true either way. |
| ElectronMain.ConfigFile.SetApiKey | electron/main.cjs:79-84 | `set-api-key` is `SetField("apiKey", …)`. |
| ElectronMain.ConfigFile.SavePlaylist | electron/main.cjs:92-97 | `save-playlist` is `SetField("playlist", …)`. |
| ElectronMain.ConfigFile.SaveCurrentIndex | electron/main.cjs:104-109 | `save-current-index` is `SetField("currentSongIndex", …)`. |
| ElectronMain.SetThenGet | electron/main.cjs:74-114 | After a setter, its getter answers the value when truthy (the index unless null, so 0 survives), and the default otherwise. |
| ElectronMain.SettersIndependent | electron/main.cjs:74-114 | Each setter's key is read only by its own getters. |
| ElectronMain.EmptyConfigDefaults | electron/main.cjs:9-18 | Without a readable file every getter answers its default. |
| ElectronMain.ExtName | electron/main.cjs:121 | `path.extname` is empty or a dotted suffix of the base name. |
| ElectronMain.MimeTypesDotted | electron/main.cjs:122-131 | The Electron table is the Rust table with a dot before each key. |
| ElectronMain.DottedKeyListed | electron/main.cjs:122-131 | Each dotted Rust key is listed, with the same type. |
| ElectronMain.ListedKeyDotted | electron/main.cjs:122-131 | Each Electron key is a dotted Rust key. |
| ElectronMain.MimeTypeCases | electron/main.cjs:121-131 | Case is ignored. A listed extension gives its type; anything else gives "audio/mpeg". |
| ElectronMain.NoExtensionMime | electron/main.cjs:131 | Without an extension both back ends give "audio/mpeg". |
| ElectronMain.MimeTypesAgree | electron/main.cjs:121-131 | Both desktop back ends give every file the same MIME type. |
| ElectronMain.MimeTypeOfDotted | electron/main.cjs:121-131 | The extension `.e` gets Rust's MIME type of `e`. |
| ElectronMain.ExtNameIsDottedExtension | electron/main.cjs:121 | Node's extension is Rust's with a dot; where Node has none, Rust has none or an empty one. |
| ElectronMain.SpaceRunStops | electron/main.cjs:224 | A greedy `\s*` from `i` stops exactly at the first non-space character. |
| ElectronMain.RestGroupSpec | electron/main.cjs:224 | `(.+)$` from a position is a non-empty suffix on one line, and exists whenever the rest is a non-empty single line. |
| ElectronMain.LazyMatchNone | electron/main.cjs:224 | Without an inner dash there is no match. |
| ElectronMain.LazyMatchAtDash | electron/main.cjs:224 | A first group that only spaces separate from a dash followed by a one-line rest is a match. |
| ElectronMain.LazyMatchFound | electron/main.cjs:224 | The lazy group stops at the first end that lets the rest match. |
| ElectronMain.LazyMatchGrows | electron/main.cjs:224 | The lazy group grows past an end that does not let the rest match. |
| ElectronMain.LazyMatchDash | electron/main.cjs:224 | Before the first inner dash, the groups are the text before it less trailing spaces and the text after it less leading spaces. |
| ElectronMain.DashMatchSplits | electron/main.cjs:224-226 | On a name without line terminators the expression matches exactly when there is an inner dash. The trimmed groups are the trimmed texts around the first one. |
| ElectronMain.DashMatchAt | electron/main.cjs:224-226 | At the first inner dash of a name on one line the expression matches, and its trimmed groups are the trimmed texts before and after that dash. |
| ElectronMain.NameDefaultsCases | electron/main.cjs:220-235 | With an inner dash the title is the trimmed text after the first and the artist the trimmed text before it, unless that is a number. Otherwise the name is the title, by "Unknown Artist". |
| ElectronMain.SplitsAtHyphen | electron/main.cjs:224-235 | "word-rest" is read as `rest` by `word`. |
| ElectronMain.SplitsAtDash | src-tauri/src/lib.rs:183-195 | Rust reads space-free text, " - " and a rest as that rest by that text. |
| ElectronMain.HyphenatedArtist | electron/main.cjs:224-235 | "a-b - c" is "b - c" by "a" in Electron but "c" by "a-b" in Tauri. |
| ElectronMain.GetFileInfo | electron/main.cjs:210-246 | The title and artist come from the name as above, the size from the stat, and a failed stat gives the stripped name by "Unknown Artist" with no size. |
| ElectronMain.ExtractMetadataMerges | electron/main.cjs:270-287 | Each tag is used when it is a non-empty string, and otherwise the name's default or "Unknown Album". The cover is the picture's data URL. |
| ElectronMain.ExtractMetadataFallback | electron/main.cjs:289-297 | Without usable tags the result is the failed read's, which agrees with `get-file-info`. |
| ElectronMain.CoverUrlParts | electron/main.cjs:276-280 | The cover URL names the picture's format and carries its base64 data. |
| LdacBT.FrameSizeTable | native/ldac/src/ldacBT.c:78-81 | The frame sizes of HQ, SQ and MQ are 330, 220 and 110 bytes. |
| LdacBT.HeaderByteFields | native/ldac/src/ldacBT.c:90-99 | Bits 5-7 of header byte 1 carry the frequency index and bits 0-2 the channel mode. |
| LdacBT.ShiftOr | native/ldac/src/ldacBT.c:90-99 | For a frequency index below 4 and a mode below 8, shifting and or-ing is adding `index * 32 + mode`. |
| LdacBT.HeaderByteRoundTrip | native/ldac/src/ldacBT.c:90-99 | Within the supported sets the header byte decodes back to frequency and channel mode. |
| LdacBT.HeaderByteExample | native/ldac/src/ldacBT.c:90-99 | 96 kHz dual channel gives 0x61. |
| LdacBT.BitrateTable | native/ldac/src/ldacBT.c:147-156 | These are the bitrates of the three modes at the four frequencies. |
| LdacBT.BitrateBounds | native/ldac/src/ldacBT.c:147-156 | The bitrate is the frame bits per 128-sample block times blocks per second, rounded down. |
| LdacBT.ChannelOf | native/ldac/src/ldacBT.c:103-117 | A channel's block samples are one block long. |
| LdacBT.WindowOf | native/ldac/src/ldacBT.c:103-117 | A window holding the tail and then the channel's samples is the reference window. |
| LdacBT.EncodedStreamHeader | native/ldac/src/ldacBT.c:90-99 | The written header parses back to the configuration and the frame size mod 256. |
| LdacBT.EncodedStreamFootprint | native/ldac/src/ldacBT.c:90-130 | Exactly bytes 0-2 and 4..nbytes-1 are written. An HQ length byte is 74. |
| LdacBT.Handle.constructor | native/ldac/src/ldacBT.c:39-43 | A fresh handle is zero-filled, with silent tails. |
| LdacBT.InitHandleEncode | native/ldac/src/ldacBT.c:49-58 | The five settings are stored without checks and the frame counter is reset. A null handle is an error, and the tails are untouched. |
| LdacBT.Encode | native/ldac/src/ldacBT.c:74-137 | A null handle returns ERR_FATAL, and a stream smaller than the frame returns ERR_ILL_PARAM. In both cases the outputs are unchanged. Otherwise the stream is the encoded header and payload, the tails are the block's samples, and the out-values are 512 samples and `nbytes` with one frame. |
| LdacBT.WriteHeader | native/ldac/src/ldacBT.c:90-99 | Exactly bytes 0-2 become sync, header and length. |
| LdacBT.AnalysisWindows | native/ldac/src/ldacBT.c:103-117 | Both windows are the reference windows, and each tail is replaced by its channel's block samples. |
| LdacBT.WritePayload | native/ldac/src/ldacBT.c:128-130 | Bytes 4..nbytes-1 are the quantised left window, and nothing else changes. |
| LdacBT.GetErrorCode | native/ldac/src/ldacBT.c:139-141 | The result is 0 for a null handle and otherwise the stored code. |
| LdacBT.GetSamplingFreq | native/ldac/src/ldacBT.c:143-145 | The result is 0 for a null handle and otherwise the configured frequency. |
| LdacBT.GetBitrate | native/ldac/src/ldacBT.c:147-156 | The result is 0 for a null handle and otherwise the bitrate of its frame size. |
| LdacJS.FrameBytes | native/ldac/ldacJS.js:48-57 | The frame size lies in 40..600, and a zero frequency gives 600. |
| LdacJS.FloorDiv | native/ldac/ldacJS.js:53 | `Math.floor(a / b)` is Euclidean division for a positive divisor. |
| LdacJS.FrameBytesExact | native/ldac/ldacJS.js:53-57 | For a positive frequency the size is the integer quotient, clamped. |
| LdacJS.FrameBytesMeetsTarget | native/ldac/ldacJS.js:48-57 | Unless clamped up to 40, the chosen frame never exceeds the target bitrate and falls short by less than one byte per block. |
| LdacJS.FrameBytesTable | native/ldac/ldacJS.js:48-57 | These are the frame sizes at the supported frequencies. |
| LdacJS.PortMatchesNativeAt48k | native/ldac/ldacJS.js:48-57 | At 48 kHz the port picks the native frame size, and at 96 kHz half of it. |
| LdacJS.BitrateKbpsExact | native/ldac/ldacJS.js:60-66 | The displayed bitrate is frame bits × blocks per second / 1000, rounded down. |
| LdacJS.Quantise | native/ldac/ldacJS.js:127-144 | A coefficient at or below -1 gives byte 0, and one at or above 1 gives 255. |
| LdacJS.QuantiseMonotone | native/ldac/ldacJS.js:127-144 | Quantisation keeps the order of coefficients. |
| LdacJS.Int16LE | native/ldac/ldacJS.js:101-117 | The signed 16-bit value is congruent to `lo + 256·hi` modulo 65536. |
| LdacJS.Samples | native/ldac/ldacJS.js:101-117 | A channel has exactly one block of samples, silent where the buffer ends. |
| LdacJS.NextPair | native/ldac/ldacJS.js:101-117 | The read position tracks the pairs read. Once a pair is missing, so is every later one. |
| LdacJS.WindowFrom | native/ldac/ldacJS.js:95-117 | A window holding the history and the samples is their concatenation. |
| LdacJS.TailOf | native/ldac/ldacJS.js:112-115 | A block of the channel's samples is the reference samples. |
| LdacJS.SamplesCoverage | native/ldac/ldacJS.js:87-117 | A buffer of 512 bytes or more leaves no pair silent, and one under 4 bytes leaves all silent. |
| LdacJS.PortFrameHeader | native/ldac/ldacJS.js:72-82 | The port's frames share the native header layout. |
| LdacJS.PortFramePadding | native/ldac/ldacJS.js:127-144 | Frames of more than 260 bytes end in zero padding, and no coefficient is written twice. |
| LdacJS.Encoder.constructor | native/ldac/ldacJS.js:34-58 | The encoder stores the configuration and silent tails, with the frame size from `FrameBytes`. |
| LdacJS.Encoder.GetBitrate | native/ldac/ldacJS.js:60-66 | The result is the displayed bitrate in kbit/s. |
| LdacJS.Encoder.Encode | native/ldac/ldacJS.js:68-147 | A missing or empty buffer gives an empty frame with the tails untouched. Otherwise the result is a fresh `PortFrame` and both tails become the block's samples. |
| LdacJS.Encoder.LoadHistory | native/ldac/ldacJS.js:95-98 | The first halves of both windows become the saved tails. |
| LdacJS.Encoder.LoadSamples | native/ldac/ldacJS.js:101-117 | The second halves of both windows, and both tails, become the block's samples. |
| LdacJS.Encoder.LoadBlock | native/ldac/ldacJS.js:87-117 | Both windows are history plus samples, and the tails are the samples. |
| LdacJS.Encoder.WritePayload | native/ldac/ldacJS.js:127-144 | Left and right coefficients are written alternately from byte 4, up to the frame's end. |
| LdacJS.VerifySonyAOSPCore | native/ldac/ldacJS.js:156-193 | A 96 kHz dual-channel HQ encoder reports 990 kbit/s, and a silent block opens its frame with 0xAA, 0x61. `verifySonyAOSPCore` returns true. |
| Text.TrimIsInfix | services/geminiService.ts:126 | `trim` cuts only whitespace, and only from the ends. |
| Text.TrimHasNoOuterSpace | services/geminiService.ts:126 | A trimmed string has no whitespace at either end. |
| Text.TrimOfSpaces | services/geminiService.ts:126 | Text made only of whitespace trims to nothing. |
| Text.TrimIdempotent | services/geminiService.ts:142 | Trimming twice is trimming once. |
| Text.Split | services/metadataService.ts:9 | `split` with a non-empty separator always gives at least one piece. |
| Text.JoinSplit | app/hooks/useAudio.ts:95-98 | Joining the pieces of a split with its separator gives back the string. |
| Text.SplitPiecesAvoidSeparator | app/hooks/useAudio.ts:95 | No piece of a split contains the separator. |
| Text.SplitHead | app/hooks/useAudio.ts:95-97 | The first piece is the text before the first separator. |
| Text.FindSplits | src-tauri/src/lib.rs:183-195 | At the first separator the string is the text before, the separator and the rest. |
| Text.BaseName | electron/main.cjs:212 | The base name is a suffix of the path without `/`. |
| Text.StripJsExtensionSplits | electron/main.cjs:213 | `/\.[^/.]+$/` removes exactly an extension, or nothing. |
| Text.StripJsExtensionKeeps | electron/main.cjs:213 | A name without a usable extension is left alone. |
| Sorting.SortByPermutes | app/hooks/useLibrary.ts:200-202 | The sort is a permutation of its input. |
| Sorting.SortBySorted | app/hooks/useLibrary.ts:200-202 | The sort leaves its output in key order. |
| Sorting.SortBySum | app/hooks/useLibrary.ts:200-202 | Sorting keeps any sum over the elements. |

## Left out

- The MDCT, the sine window and all floating-point signal processing of both LDAC encoders (`ldacBT.c` and `ldacJS.js`) are not modelled. The coefficients are a function parameter, so payload byte values are not computed. Only the place and order of each byte is modelled.
- `ldacBT_free_handle`, the `ga_smp_freq` lookup arrays and the native Node wrapper are left out. They are memory management and glue.
- C `int` overflow is not modelled. The frame counter and the bitrate product are unbounded integers, and no realistic configuration overflows them.
- `LdacJS.Encoder.constructor`: only 0 is treated as the "falsy" MTU. JavaScript's `NaN` and `undefined` are not numbers of the model.
- Case mapping is ASCII only (`toLowerCase`/`toUpperCase`, Rust `to_lowercase`). `localeCompare` is modelled as code-point order. Strings are sequences of Unicode code points. JavaScript's UTF-16 lengths, indices and per-surrogate regex matching of text outside the BMP are not modelled, and lone surrogates cannot be represented.
- Percentages and luminance thresholds are exact reals, so double-precision rounding is not modelled.
- File, IPC and dialog I/O are parameters:
  - the outcome of a configuration write;
  - the size `fs.statSync` reports;
  - the tag record `jsmediatags` yields;
  - what `get-file-info` reports;
  - a directory's entries.

  Reading and parsing the configuration file is a stored value. A file that does not parse gives the default.
- The base64 encoding of pictures and file buffers is not modelled. The base64 text is a field of the picture.
- `JSON.stringify` dropping `undefined` members is not modelled. A setter stores the value it receives.
- `ElectronMain.ExtName`: Node's `basename` is modelled for '/'-separated paths without trailing separators. Windows separators are not modelled.
- `ElectronMain.DashMatchSplits`: the expression is characterised only on names without line terminators. With one, `.` stops and only the position-wise lemmas apply.
- The random source of the shuffle is a sequence of draws that includes an accepted one. The loop's termination with probability 1 is not modelled.
- The `PlaylistItemMetadata` record types are modelled as `UseLibrary.Metadata`. Only the fields read here are kept.
- `getAudioFormat` looking up a name such as `constructor` on the object prototype is not modelled. The table is a plain map.
- In `playSongFromItem`, object-URL creation, `file://` path rewriting, bitrate estimation and the metadata fetch are left out. They drive the browser, not the label. Whether a queue item yields a URL (a `File`, or a path under Electron) is given as the snapshot's set of playable indices, and an item without one leaves the state unchanged.
- `togglePlay`, `resolveITunesCoverUrl` and the network lyric lookup are left out. They call the browser and the network.
- `UseAudio.PreviousSelects`: a negative current index selects a negative index, as the source does. `handleSongSelect` then ignores it.
- `read_dir`, the file dialogs and the config-file location are left out. The listing is modelled from the entry names.
- `ldacBT_init_handle_encode` does no validation, and the model follows the code.

## Findings

| source | as written | input that shows it | evidently intended | confidence | as-written member | corrected member |
|---|---|---|---|---|---|---|
| services/colorService.ts:87-110 | `parseInt` accepts a sign, so a channel can be negative. It is then below every non-negative luminance threshold and is formatted back with a `-` | `ensureDarkColor("#-f-f-f")` returns `#-f-f-f` | the result is always a `#rrggbb` colour | not executed | ColorService.DarkColourSignedChannels | ColorService.DarkColourCheckedIsColour |
| app/hooks/useLibrary.ts:186 | albums are keyed by the string `${albumName}__${artistName}`, which is not injective | album "1__2" by "3" and album "1" by "2__3" share the key "1__2__3", so both land in one album by "3" | albums keyed by the (album, artist) pair | not executed | UseLibrary.AlbumKeyCollision | UseLibrary.AlbumsMatchTracks |

A related observation concerns the desktop back ends, which read file names
differently (`ElectronMain.HyphenatedArtist`). Electron's lazy
`^(.+?)\s*-\s*(.+)$` splits at the first hyphen. Tauri splits at the first
" - ". So "a-b - c" is "b - c" by "a" in one shell and "c" by "a-b" in the
other. The model keeps both as written.
