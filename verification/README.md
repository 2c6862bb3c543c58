# Media player core, modelled in Dafny

This project models the self-contained logic of a desktop media player and of
its video-catalog browser:

- **the playlist store** (`PlaylistManager`): a map from playlist name to an
  ordered list of track paths, with create, delete, add and remove operations
  that answer `true`/`false` and update the map in place, the fallback to an
  empty store when the playlists file is missing or does not decode, and the
  audio-file filter of the directory scan;
- **the video catalog** (`VideoDataManager`): channels holding videos, the
  "all videos" and "videos of a category" queries, the choice of the videos
  the thumbnail grid shows for a channel selection, and the cache of
  downloaded thumbnail textures;
- **the thumbnail tile** (`ThumbnailButton`): the category display names, the
  "m:ss" duration label, the selected flag and its colour, and the
  loading-indicator / play-button visibility;
- **the player controls**: the "m:ss" label of a millisecond position, and the
  play/pause button whose label decides which of two signals a click emits.

Modules: `Wrappers` (an `Option` type), `Sequences` (searching sequences),
`Text` (ASCII letter case, decimal numerals, the "m:ss" label and a reader for
it), `Playlists`, `Catalog` (the catalog records and the query
specifications), `Thumbnail`, `VideoManager` and `PlayerControls`.

State that the source updates in place is a class (`PlaylistManager`,
`VideoDataManager`, `ThumbnailButton`, `PlayerControls`) whose methods carry
`modifies` clauses and state the whole new state. Loops of the source are
loops here (the directory scan, the catalog queries, the channel search), each
proved against a specification function whose properties are lemmas. Pure
computations are functions with lemmas relating them to an independent
description: both "m:ss" labels are read back by `ParseClock` and shown to
carry minutes and seconds 0..59 that add up to the whole seconds shown.

Inputs from outside the program are parameters: what the playlists file held
(`StoredPlaylists`), what the directory walk yielded (`WalkStep`s), and the
outcome a thumbnail download would have (`Fetch`). A UI object that a tile
writes to is an `Option` whose `None` stands for a reference that is not set.

## Model

| member | source | states |
|---|---|---|
| Text.ToLowerMatchesKey | ThumbnailButton.cs:123 | lower-casing a string gives a lower-case key exactly when the string spells that key in any mixture of letter case |
| Text.ClockLabelRoundTrip | src/ui/player_controls.py:120 | an "m:ss" label reads back as the minutes and seconds it was made from, the seconds field being exactly two digits |
| Playlists.WithTrackAppendsOnce | src/core/playlist.py:54-55 | `WithTrack`: adding appends an absent track at the end, leaves a present one as it is, and adding twice is the same as adding once |
| Playlists.WithTrackKeepsNoDuplicates | src/core/playlist.py:54-55 | adding to a duplicate-free list keeps it duplicate-free |
| Playlists.WithoutTrackDropsFirst | src/core/playlist.py:63-64 | `WithoutTrack`: removing deletes exactly the first occurrence of the track and changes nothing when the track is absent |
| Playlists.WithoutTrackMultiset | src/core/playlist.py:63-64 | removing takes exactly one copy of the track out of the list when there is one |
| Playlists.WithoutTrackKeepsNoDuplicates | src/core/playlist.py:63-64 | removing from a duplicate-free list keeps it duplicate-free and leaves no copy of the track |
| Playlists.RemoveUndoesAdd | src/core/playlist.py:50-66 | removing a track just added to a list that did not hold it gives back that list |
| Playlists.SuffixShape | src/core/playlist.py:83 | `Suffix`: a file's suffix is empty or a tail starting at the name's last dot with a non-empty stem before it; it is non-empty exactly when such a dot exists and the name does not end with a dot |
| Playlists.SuffixIsExtension | src/core/playlist.py:83 | the lower-cased suffix equals a dotted extension exactly when the name ends with that extension in any letter case after a non-empty stem |
| Playlists.IsAudioFileIff | src/core/playlist.py:79-83 | `IsAudioFile`: a file is kept exactly when its name ends, in any case, with .mp3, .wav, .ogg, .flac or .m4a after a non-empty stem |
| Playlists.AudioPathsInMembers | src/core/playlist.py:82-84 | `AudioPathsIn` and `JoinPath`: the paths kept in one directory are exactly the joined paths of its audio files |
| Playlists.AudioPathsMembers | src/core/playlist.py:81-84 | `AudioPaths`: the scan result holds exactly the joined paths of the audio files of every walked directory |
| Playlists.PlaylistManager.constructor | src/core/playlist.py:7-12 | a new store holds what the playlists file decoded to, or nothing |
| Playlists.PlaylistManager.LoadPlaylists | src/core/playlist.py:18-27 | a missing or undecodable playlists file leaves the store empty; a decoded one replaces it |
| Playlists.PlaylistManager.CreatePlaylist | src/core/playlist.py:34-40 | false and no change for an existing name; otherwise true and exactly that name added with an empty list |
| Playlists.PlaylistManager.DeletePlaylist | src/core/playlist.py:42-48 | false and no change for an absent name; otherwise true, that key removed and every other playlist untouched |
| Playlists.PlaylistManager.AddToPlaylist | src/core/playlist.py:50-57 | false exactly when the playlist is absent; otherwise only that playlist changes, by the no-duplicate append; duplicate-freedom is kept |
| Playlists.PlaylistManager.RemoveFromPlaylist | src/core/playlist.py:59-66 | false exactly when the playlist is absent; otherwise only that playlist changes, losing the first occurrence of the track; duplicate-freedom is kept |
| Playlists.PlaylistManager.GetPlaylist | src/core/playlist.py:68-70 | nothing for an unknown name, the stored list otherwise |
| Playlists.PlaylistManager.GetAllPlaylists | src/core/playlist.py:72-74 | a map with the same names and lists as the store |
| Playlists.PlaylistManager.ScanDirectory | src/core/playlist.py:76-86 | the nested loop returns the audio files of the walk, joined to their directory, in walk order |
| Catalog.AllContentLength | VideoDataManager.cs:247-258 | the number of all videos is the sum of the channels' content lengths |
| Catalog.AllContentMembers | VideoDataManager.cs:252-255 | `AllContent`: a video is among all videos exactly when some channel holds it |
| Catalog.InCategoryAppend | VideoDataManager.cs:265-274 | filtering by category channel by channel gives the filter of the joined list |
| Catalog.InCategoryExact | VideoDataManager.cs:260-277 | `InCategory`: the category filter keeps exactly the videos of that category, each as often as it occurs in the input, and is a subsequence of its input |
| Catalog.InCategoryCounts | VideoDataManager.cs:260-277 | a video of the category occurs in the result as often as in the input (a video listed in two channels is kept twice); any other video does not occur |
| Thumbnail.CategoryLabels | ThumbnailButton.cs:121-132 | `CategoryDisplayName`: "episodes", "clips", "music", "shorts" in any letter case show as "Episode", "Clip", "Music Video", "Short Film"; null shows as "Unknown" |
| Thumbnail.CategoryFallThrough | ThumbnailButton.cs:133-134 | any other category is shown unchanged, in its original letter case |
| Thumbnail.FormatDurationFields | ThumbnailButton.cs:142-144 | `FormatDuration`: a positive duration shows as minutes and two-digit seconds 0..59 whose total is the whole seconds of the duration |
| Thumbnail.FormatDurationNonPositive | ThumbnailButton.cs:140 | a duration of zero or less shows as the empty string |
| Thumbnail.ThumbnailButton.constructor | ThumbnailButton.cs:16-22 | a new tile has the default colours, no video and is not selected |
| Thumbnail.ThumbnailButton.Initialize | ThumbnailButton.cs:36-40 | the tile is bound to the video; with a video, labels are refreshed, the loading indicator shown and the play button hidden |
| Thumbnail.ThumbnailButton.UpdateUI | ThumbnailButton.cs:42-75 | with no video nothing changes; otherwise each referenced label gets the title, category display name and duration label, the indicator is shown and the play button hidden |
| Thumbnail.ThumbnailButton.SetThumbnail | ThumbnailButton.cs:77-97 | with an image and a texture the sprite is set, the indicator hidden and the play button shown; otherwise nothing changes; one-indicator-shown is kept |
| Thumbnail.ThumbnailButton.OnPointerClick | ThumbnailButton.cs:99-105 | a click reports the bound video, and reports nothing when no video is bound |
| Thumbnail.ThumbnailButton.SetSelected | ThumbnailButton.cs:107-111 | the selected flag becomes the argument and the image colour the selected colour exactly when selected |
| Thumbnail.ThumbnailButton.UpdateVisualState | ThumbnailButton.cs:113-119 | a referenced image takes the selected or the normal colour according to the flag; nothing else changes |
| Thumbnail.ThumbnailButton.IsSelected | ThumbnailButton.cs:153-156 | returns the selected flag |
| Thumbnail.ThumbnailButton.GetVideoData | ThumbnailButton.cs:148-151 | returns the bound video |
| Thumbnail.SelectThenAsk | ThumbnailButton.cs:107-156 | after `SetSelected(b)`, `IsSelected()` reports b, the video is kept and the image shows the selected or normal colour accordingly |
| VideoManager.VideoDataManager.constructor | VideoDataManager.cs:67-68 | a new manager has no catalog and an empty thumbnail cache |
| VideoManager.VideoDataManager.LoadCatalog | VideoDataManager.cs:104-173 | a catalog that does not decode leaves the loaded one in place and a decoded one replaces it; it is announced exactly when it has metadata; with metadata and a channel list, a set channel container gets a button per channel and a set thumbnail container a tile per video of all channels; a null channel list builds neither |
| VideoManager.VideoDataManager.GetAllChannels | VideoDataManager.cs:242-245 | the channel list, or an empty list when the catalog or its channel list is null |
| VideoManager.VideoDataManager.GetAllVideos | VideoDataManager.cs:247-258 | the loop returns the channel contents joined in channel order, and an empty list when the catalog or its channels are null |
| VideoManager.VideoDataManager.GetVideosByCategory | VideoDataManager.cs:260-277 | the nested loop returns the category filter of all videos, in order |
| VideoManager.VideoDataManager.VideosToShow | VideoDataManager.cs:155-173 | with a null or empty channel id all videos; otherwise the content of the first channel with that id, or nothing when none has it |
| VideoManager.VideoDataManager.LoadThumbnail | VideoDataManager.cs:192-216 | a cache hit shows the cached texture without a download; a miss downloads, and on success caches the texture under the URL and shows it; the cache only grows |
| VideoManager.VideoDataManager.OnDestroy | VideoDataManager.cs:279-290 | the cache is left empty and the catalog untouched |
| PlayerControls.FormatTimeFields | src/ui/player_controls.py:116-120 | `FormatTime`: the label shows minutes and two-digit seconds 0..59 with minutes * 60 + seconds = ms // 1000 |
| PlayerControls.FormatTimeTruncates | src/ui/player_controls.py:117 | sub-second parts are cut off, not rounded; every position below one second shows "0:00" |
| PlayerControls.ToggleTwice | src/ui/player_controls.py:98-104 | `Toggle`: two clicks emit two different signals and, from the play or pause glyph, restore it |
| PlayerControls.PlayerControls.constructor | src/ui/player_controls.py:25-37 | the button starts on the play glyph and both time labels on "0:00" |
| PlayerControls.PlayerControls.TogglePlay | src/ui/player_controls.py:98-104 | the play glyph becomes the pause glyph and emits play; any other label becomes the play glyph and emits pause |
| PlayerControls.PlayerControls.SetTimeLabels | src/ui/player_controls.py:112-114 | both time labels show the "m:ss" of their positions |
| PlayerControls.ClickTwice | src/ui/player_controls.py:98-104 | two clicks in a row restore the button label and emit play then pause, or pause then play |

## Left out

- Reading and writing the playlists JSON file and creating the data directory are I/O: the model is given what the file held. Errors other than a decoding failure (an unreadable file, bytes that are not text) propagate in the source and are not modelled, nor is a file that decodes to something other than a map of lists.
- Saving after each change (`_save_playlists`) is I/O and is not modelled.
- Playlists.JoinPath: joins paths by the POSIX rules of `os.path.join` (`/` separator, an absolute name replacing the root); on Windows the source joins by the `ntpath` rules (`\` separator, drive letters), which are not modelled.
- The directory walk itself is I/O: the scan is given the sequence of (directory, file names) the walk yields, the file names being base names.
- Playlists.PlaylistManager.GetPlaylist: the source hands out the stored list object itself, so a caller's later changes to it reach the store; the model returns a value and does not capture that aliasing. The same holds for the lists inside the copy `GetAllPlaylists` returns.
- Letter case is ASCII only. For the audio extensions this is exact: no other character lower-cases to a letter of those five extensions in Python.
- CategoryDisplayName: C#'s `ToLower` depends on the current culture (in a Turkish culture "CLIPS" does not lower-case to "clips") and lower-cases non-ASCII letters too (U+0130 becomes "i"); the model lower-cases ASCII letters only.
- FormatDuration: the duration is a real number, not a 32-bit float; float rounding of `duration / 60f`, and overflow of `FloorToInt` for huge durations, are not modelled.
- Downloads (`UnityWebRequest`), decoding the catalog JSON (`JsonUtility`), creating and destroying engine objects (`Instantiate`, `Destroy`, `Sprite.Create`) and logging are engine or network calls: a download's outcome is a parameter, textures are opaque handles, and the destruction of cached textures in `OnDestroy` is not modelled beyond emptying the cache.
- VideoManager.VideoDataManager.LoadThumbnail: each load runs as one step. In the source a load is a coroutine, so two loads of the same URL can both miss the cache and the later one then replaces the cached texture; "an entry is never replaced" holds only for loads that run one after the other.
- `LoadVideoData`, `LoadVideoDataFromURL`, `OnChannelSelected`, `OnVideoSelected` and `PlayVideo` only fetch, decode, log and build engine objects. Of `PopulateChannels` and `PopulateThumbnails`, what is modelled is whether each runs and which channels and videos it builds for (`LoadCatalog`, `VideosToShow`); clearing the old children, instantiating prefabs and subscribing to their events are not.
- Channel lists with null entries and channels with a null content list make the source throw; the model's channel entries and content lists are never null.
- Thumbnail.ThumbnailButton.OnPointerClick returns the video the `OnVideoSelected` event would carry; whether any handler is subscribed is not modelled.
- `Awake`'s automatic lookup of child components is an engine call: the tile's references are given to its constructor. The hover colour is kept but never used, as in the source. The three colours are public fields in the source that a prefab or the Inspector can override; the model fixes them at their initialiser values.
- Thumbnail.ThumbnailButton: the six UI references (image, title, category and duration texts, play button, loading indicator) are taken to be distinct objects, each an independent `Option` field. In the source `Awake`'s fallback lookup can bind the title text to the same `Text` as the category or duration text, so that the last write of `UpdateUI` wins, and a loading indicator that is the play button would break `OneIndicatorShown`; the model does not capture such sharing.
- VideoManager.VideoDataManager.GetAllChannels: the source hands out the catalog's own channel list, so a caller's later changes to it reach the catalog; the model returns a value and does not capture that aliasing.
- Playlists.PlaylistManager.GetAllPlaylists: the store is a map, so the creation order in which the source's dict iterates (a deleted and re-created name moving to the end) is not modelled; no caller in these sources depends on that order.
- VideoManager.VideoDataManager.LoadCatalog: decoding itself is an engine call and is a parameter; `JsonUtility` details (missing fields taking default values) are not modelled. Whether the channel and thumbnail containers and prefabs are set is a parameter.
- The player controls' widget layout, style sheet, slider updates (`set_position`, `set_duration`) and signal wiring are UI plumbing. The audio player wrapper, the main window, the library, content-area and sidebar widgets hold no logic of their own beyond that plumbing and are not part of this model.
- These source files contain no audio-reactive particle visualisation, so none is modelled.
