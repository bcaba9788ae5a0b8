# BakaMusic playback and library core in Dafny

This project models the playback and library logic of the BakaMusic React Native
music player. It does not model the screens or the audio and file-system libraries.

- **Playback resource manager** (`src/services/PlayerManager.ts`). The `PlayerManager`
  class holds at most one sound and the id of its track. It has a re-entrancy flag
  for `playTrack`, a single-slot status listener and a single-slot finish listener.
- **Playback façade** (`src/services/PlayerService.ts`). These are the module
  variables `currentSound` and `playbackCallback` and the functions that reassign
  them. The UI drives playback through this façade.
- **Library indexer** (`src/services/MusicService.ts`). It covers:
  - filename → artist/title parsing;
  - the audio-extension allow-list;
  - the recursive scan of the two storage roots;
  - first-occurrence deduplication;
  - the demo-catalog fallback;
  - the `isScanning` guard and the `trackCache` slot with its cache file;
  - limit/offset paging.
- **Player slice** (`src/store/playerSlice.ts`). This is the store's playback state,
  one method per reducer. It includes the 500 ms grace window that keeps
  device-reported progress from overwriting a position the user has just chosen.
- **Player context** (`src/contexts/PlayerContext.tsx`). It maps device statuses to
  store actions, and orders the dispatches around the awaited calls in `playNewTrack`,
  `togglePlayback` and `stopSeeking`.
- **Player screen decisions** (`src/screens/PlayerScreen.tsx`). These are:
  - next/previous wrap-around;
  - the current-index lookup;
  - the repeat-mode cycle;
  - the finish-callback decision;
  - the `m:ss` time label.

How the model is built:

- **Stateful code becomes classes.** Code that updates state in place is a Dafny
  `class` whose methods state the whole new state: `PlayerManager`, the façade's
  `AudioPlayer`, `MusicLibrary`, the slice's `PlayerState`, the context's
  `PlayerProvider` and the screen's `ScreenState`.
- **Pure code becomes functions** with lemmas about them.
- **Awaited library calls are parameters.** Each call to expo-av, RNFS or the cache
  file is one atomic step. Its outcome is a parameter:
  - whether `stopAsync`, `unloadAsync` or the cache write succeeds;
  - what `getStatusAsync` reports;
  - which sound `createAsync` yields, or none when it throws.
- **Requests are logged in order.** Every request made of the audio subsystem, and
  every listener invocation, is appended to an `effects` log. The contracts can then
  say "stopped and unloaded before the new sound is created".
- **Clocks are parameters.** `Date.now()` is the integer parameter `now`, in
  milliseconds.
- **Positions are whole numbers.** They are milliseconds on the device side and
  whole seconds at the seek API.

Modules: `Wrappers` (`Option`), `Strings` (JavaScript string operations the source
relies on), `Audio`, `MusicService`, `Manager`, `Service`, `Slice`, `Context`, `Screen`.

### Behaviour kept as the code has it

- **Seeking does not clamp.** `seekToPosition` passes `positionSec * 1000`
  unchanged, in both the manager and the façade.
- **Same-track reload leaks a sound.** `PlayerManager.playTrack` is asked for the
  current track while its sound reports not loaded. Control then falls through
  past the resume branch and skips the stop/unload branch, because the ids are
  equal. A second sound is created and the first is never released.
  `Manager.ReloadSameTrack` exhibits this.
- **`cleanupPlayer` can reject.** The façade's `cleanupPlayer` has no
  `try`/`catch`. When unloading throws, the promise rejects before anything is
  cleared, so the sound and the status listener both stay.
- **The screen imports a function the façade does not export.**
  `PlayerScreen.tsx` imports `setOnTrackFinishCallback` from
  `PlayerService.ts`. Only `PlayerManager` has a finish listener
  (`src/services/PlayerManager.ts:168-170`). The screen's finish decision is
  modelled as a function (`Screen.OnTrackFinish`), independently of how it would
  be registered.
- **The title is trimmed only in the delimited case.** Without a `" - "`, the
  title is the extension-less name untrimmed. With one, both parts are trimmed.
- **An empty cache still counts as a cache.** `trackCache` is a present-or-absent
  slot. An empty list read from the cache file is a present cache, and
  `getTracks` then pages it without scanning.

## Model

| member | source | states |
|---|---|---|
| Manager.PlayerManager.constructor | src/services/PlayerManager.ts:4-10 | A new manager holds no sound, no track id, no listeners, and neither flag is set |
| Manager.PlayerManager.Initialize | src/services/PlayerManager.ts:12-29 | The audio mode is requested on every call until one succeeds, and never again after that; the result is whether the manager is initialized |
| Manager.PlayerManager.PlayTrack | src/services/PlayerManager.ts:31-81 | With a call in flight nothing changes. Otherwise the flag is released on every path, and the sound/id invariant is kept. For the current track its status is asked first: a loaded sound is only resumed, and only if paused; not-loaded falls through to creation without releasing the held sound. For another track the held sound is stopped and unloaded before the new one is created, and the references are dropped even if that fails. After a successful create, sound and id name the new track |
| Manager.PlayerManager.PauseTrack | src/services/PlayerManager.ts:83-91 | Pauses the held sound, and does nothing without one |
| Manager.PlayerManager.ResumeTrack | src/services/PlayerManager.ts:93-101 | Plays the held sound, and does nothing without one |
| Manager.PlayerManager.StopTrack | src/services/PlayerManager.ts:103-119 | Stop, then unload if the stop succeeded; whatever fails, it ends with no sound, no id and the flag clear |
| Manager.PlayerManager.GetCurrentTrackPosition | src/services/PlayerManager.ts:121-156 | Position, duration (0 when unknown) and playing flag of a loaded sound, zeros otherwise; a failing status request unloads and drops the sound and its id |
| Manager.PlayerManager.SeekToPosition | src/services/PlayerManager.ts:158-166 | Seeks the held sound to exactly `positionSec * 1000`, unclamped; nothing without a sound |
| Manager.PlayerManager.SetOnTrackFinishCallback | src/services/PlayerManager.ts:168-170 | The finish slot holds exactly the new listener |
| Manager.PlayerManager.OnPlaybackStatusUpdate | src/services/PlayerManager.ts:172-194 | The status goes to the status listener first. Loaded and just finished: sound and id are cleared, then the finish listener is called, and it sees neither a sound nor an id. Not loaded with a non-empty error: both are cleared. Otherwise nothing but the notification |
| Manager.PlayerManager.SetPlaybackCallback | src/services/PlayerManager.ts:196-198 | The status slot holds exactly the new listener |
| Manager.PlayerManager.Cleanup | src/services/PlayerManager.ts:200-214 | Stops and unloads the held sound with failures swallowed; afterwards no sound, no id, both slots empty and the flag clear |
| Manager.PlayerManager.GetCurrentTrackId | src/services/PlayerManager.ts:216-218 | The id is present exactly when a sound is held |
| Manager.PlayerManager.IsPlaying | src/services/PlayerManager.ts:220-232 | True exactly when a sound is held and its status request reports loaded and playing |
| Manager.SwitchTracks | src/services/PlayerManager.ts:53-75 | Loading one track then another gives the request order create, stop, unload, create, and only the second sound is held afterwards |
| Manager.ReloadSameTrack | src/services/PlayerManager.ts:42-75 | Re-requesting the current track while it reports not loaded creates a second sound and never unloads the first |
| Manager.CleanupTwice | src/services/PlayerManager.ts:200-214 | A second cleanup makes no request and leaves the same state as the first |
| Audio.StopThenUnload | src/services/PlayerManager.ts:56-61 | Stop always comes first; unload is requested exactly when the stop succeeded |
| Audio.NotifyIfSet | src/services/PlayerService.ts:114-116 | A status is delivered exactly when a listener is registered, as one notification of that listener with that status |
| Service.AudioPlayer.constructor | src/services/PlayerService.ts:4-5 | The façade starts with no sound and no listener |
| Service.AudioPlayer.SetupPlayer | src/services/PlayerService.ts:7-20 | Requests the audio mode and reports whether that worked |
| Service.AudioPlayer.PlayTrack | src/services/PlayerService.ts:22-42 | The held sound is unloaded and dropped before the new one is created and played. If that unload throws, the old sound stays held and nothing is created. Afterwards the held sound is exactly the created one |
| Service.AudioPlayer.PauseTrack | src/services/PlayerService.ts:44-52 | Pauses the held sound; a no-op without one |
| Service.AudioPlayer.ResumeTrack | src/services/PlayerService.ts:54-62 | Plays the held sound; a no-op without one |
| Service.AudioPlayer.StopTrack | src/services/PlayerService.ts:64-74 | The sound is dropped only when both stop and unload succeed |
| Service.AudioPlayer.GetCurrentTrackPosition | src/services/PlayerService.ts:76-101 | Position, duration (0 when unknown) and playing flag of a loaded sound, zeros otherwise; a failing request changes nothing |
| Service.AudioPlayer.SeekToPosition | src/services/PlayerService.ts:103-111 | Seeks the held sound to `positionSec * 1000`, unclamped; a no-op without one |
| Service.AudioPlayer.OnPlaybackStatusUpdate | src/services/PlayerService.ts:113-126 | Every status goes to the slot's current occupant, if any, and nothing else changes |
| Service.AudioPlayer.SetPlaybackCallback | src/services/PlayerService.ts:129-131 | The single slot holds exactly the new listener |
| Service.AudioPlayer.CleanupPlayer | src/services/PlayerService.ts:134-140 | Succeeds exactly when there is no sound or its unload succeeds, and then leaves neither sound nor listener; on failure both stay |
| Service.ListenerReplaced | src/services/PlayerService.ts:113-131 | After the listener is replaced, each status reaches only the listener that held the slot when it arrived |
| MusicService.StripExtension | src/services/MusicService.ts:20 | The name changes exactly when it ends in a dot followed by characters that are neither dots nor slashes, and then loses exactly that suffix |
| MusicService.ExtractMetadataFromFilename | src/services/MusicService.ts:17-32 | With a `" - "` in the extension-less name, the artist is what precedes the first one and the title everything after it, both trimmed. Without one, the artist is "Unknown Artist" and the title is the extension-less name, untrimmed |
| MusicService.MetadataOfName | src/services/MusicService.ts:21-31 | The same cut on a name whose extension is already gone |
| MusicService.SplitPieces | src/services/MusicService.ts:21-25 | `split(" - ")` gives one piece when there is no delimiter. Otherwise it gives at least two: the first is what precedes the first delimiter, and the rest, re-joined with `" - "`, is everything after it |
| MusicService.MetadataExampleWithArtist | src/services/MusicService.ts:17-27 | "Artist A - Song One.mp3" gives artist "Artist A" and title "Song One" |
| MusicService.MetadataExampleWithoutArtist | src/services/MusicService.ts:28-31 | "Song Two.mp3" gives title "Song Two" by "Unknown Artist" |
| MusicService.ExtensionExamples | src/services/MusicService.ts:34 | The allow-list ignores case ("Song.MP3" is a music file) and rejects other extensions ("cover.jpg") |
| MusicService.IsMusicFileIgnoresCase | src/services/MusicService.ts:34-47 | A name passes the allow-list exactly when its lower-case form does |
| MusicService.MusicFileLosesItsExtension | src/services/MusicService.ts:20-47 | A music file ends in one of the five extensions, ignoring case, and the metadata step strips exactly that extension |
| MusicService.TrackForFile | src/services/MusicService.ts:49-55 | The track of a file has the path as id, `file://` + path as url, no artwork or duration, and the file's metadata as title and artist |
| MusicService.ScanListing | src/services/MusicService.ts:36-62 | Every track a scan yields has id = path, url = `file://` + path, and no artwork or duration |
| MusicService.ScanEntries | src/services/MusicService.ts:42-57 | The same for the concatenated scans of a directory's items |
| MusicService.ScanEntry | src/services/MusicService.ts:43-56 | The same for one item's scan |
| MusicService.ScanListingMembers | src/services/MusicService.ts:36-62 | A track is in a listing's scan exactly when it is the track of a music file somewhere below the listing, at any depth. A missing or unreadable listing has no files |
| MusicService.ScanEntryMembers | src/services/MusicService.ts:43-56 | A track is in one item's scan exactly when it is the track of a music file that the item is or contains |
| MusicService.ScanEntriesMembers | src/services/MusicService.ts:42-57 | The scan of a sequence of items holds exactly what the items' own scans hold |
| MusicService.ScanDirectory | src/services/MusicService.ts:36-62 | The loop over a directory's items collects exactly the depth-first, in-order tracks of its music files |
| MusicService.ScanItem | src/services/MusicService.ts:43-56 | One item of the walk yields exactly its part of the scan: a directory's whole scan, a music file's single track, otherwise nothing |
| MusicService.FindIndex | src/services/MusicService.ts:76 | The first position holding the id, or -1 when none does |
| MusicService.KeptAreFirst | src/services/MusicService.ts:75-77 | Every track the filter keeps is the first occurrence of its id |
| MusicService.KeepFirst | src/services/MusicService.ts:75-77 | Filtering the first n tracks keeps at most n, invents none, and always keeps the very first track |
| MusicService.Dedup | src/services/MusicService.ts:75-77 | Deduplication never lengthens the list, keeps only tracks that were there, and leaves a non-empty list non-empty. Its order is that of first occurrences (`DedupKeepsOrder`) |
| MusicService.KeepFirstKeepsOrder | src/services/MusicService.ts:75-77 | The tracks kept among the first n come in the order in which their ids first occur in the scan |
| MusicService.DedupKeepsOrder | src/services/MusicService.ts:75-77 | Deduplication keeps the scan's order: of two kept tracks, the one whose id occurs first in the scan comes first |
| MusicService.DedupDistinct | src/services/MusicService.ts:75-77 | After deduplication the ids are pairwise distinct |
| MusicService.DedupKeepsFirstOccurrences | src/services/MusicService.ts:75-77 | Deduplication keeps the first occurrence of every id and keeps nothing else |
| MusicService.DedupIdempotent | src/services/MusicService.ts:75-77 | A list with distinct ids is kept as it is, so deduplicating twice equals deduplicating once |
| MusicService.FullScan | src/services/MusicService.ts:64-95 | The catalog is never empty and no two of its tracks share an id |
| MusicService.FullScanShape | src/services/MusicService.ts:64-95 | An empty scan gives exactly the demo track; otherwise every track has a file's id, url and missing artwork and duration |
| MusicService.ScanRootsMembers | src/services/MusicService.ts:65-73 | The scan of both roots holds exactly the tracks of the music files under either root |
| MusicService.FullScanWithoutMusic | src/services/MusicService.ts:75-93 | With no music file under either root, the catalog is the demo track alone |
| MusicService.FullScanTracksAreMusicFiles | src/services/MusicService.ts:64-94 | When there is music under the roots, every track of the catalog is the track of one of those music files |
| MusicService.FullScanHasEveryMusicFile | src/services/MusicService.ts:64-94 | Every music file under the roots is in the catalog: its path is the id of one of the tracks |
| MusicService.PerformFullScan | src/services/MusicService.ts:64-95 | The loop over the two roots, followed by dedup and fallback, returns the full scan: non-empty, with distinct ids |
| MusicService.PageOf | src/services/MusicService.ts:151-160 | The page is `all[offset .. offset+limit]` clipped to the list, with total = the list's length. An offset at or past the end gives an empty page, and a page never exceeds the limit |
| MusicService.PageExamples | src/services/MusicService.ts:151-160 | On five tracks, limit 2 at offset 0 gives the first two, and at offset 4 the last one |
| MusicService.MusicLibrary.constructor | src/services/MusicService.ts:13-14 | A fresh process has no scan in flight and no cache in memory |
| MusicService.MusicLibrary.LoadTracksFromCache | src/services/MusicService.ts:97-107 | The stored list when the file exists and can be read, otherwise nothing |
| MusicService.MusicLibrary.SaveTracksToCache | src/services/MusicService.ts:109-115 | A successful write replaces the stored list; a failed write leaves it as it was |
| MusicService.MusicLibrary.InitializeTrackCache | src/services/MusicService.ts:117-140 | A no-op while a scan is in flight; otherwise the guard is always released. Without a forced rescan, a readable cache is used as it is with no scan. In every other case the full scan replaces the cache and is written back |
| MusicService.MusicLibrary.GetTracks | src/services/MusicService.ts:142-161 | Pages `trackCache or []`. A present cache without a forced rescan is used with no scan. A call during an in-flight scan starts no second scan |
| MusicService.MusicLibrary.GetAllTracks | src/services/MusicService.ts:164-172 | The tracks of `getTracks` with limit 20, offset 0 and no rescan when not given: at most 20 tracks, by default the first 20 of the cache; the cache is the old one when present and no rescan is forced, else the cache file when readable, else the full scan (written back when the write succeeds), and a call during a scan changes nothing |
| MusicService.MusicLibrary.RescanLibrary | src/services/MusicService.ts:174-176 | Unless a scan is in flight, the cache becomes the full scan and is written back |
| MusicService.CacheRoundTrip | src/services/MusicService.ts:97-140 | After a rescan whose write succeeds, a fresh process reading the cache sees the same ordered list |
| Slice.PlayerState.constructor | src/store/playerSlice.ts:13-20 | The slice starts in exactly the initial state |
| Slice.PlayerState.SetTrack | src/store/playerSlice.ts:26-28 | Only the current track changes |
| Slice.PlayerState.SetPlaying | src/store/playerSlice.ts:29-31 | Only the playing flag changes |
| Slice.PlayerState.UpdateProgress | src/store/playerSlice.ts:32-48 | The position is taken only when no seek is in progress and more than 500 ms have passed since the last one; at exactly 500 ms it is still ignored. The duration is taken only when it is also positive. No other field changes |
| Slice.PlayerState.StartSeeking | src/store/playerSlice.ts:49-51 | Only the seeking flag changes, to true |
| Slice.PlayerState.FinishSeeking | src/store/playerSlice.ts:52-56 | Seeking ends, the position is the chosen one and the grace window starts now; nothing else changes |
| Slice.PlayerState.ResetPlayer | src/store/playerSlice.ts:57-59 | The state is exactly the initial state |
| Slice.PlayerState.Dispatch | src/store/playerSlice.ts:22-60 | Each action has exactly the effect of its reducer |
| Slice.SeekArbitration | src/store/playerSlice.ts:38-56 | After a seek to 40 finishes, a device report of 5 is ignored 100 ms later and taken 600 ms later |
| Context.StatusActions | src/contexts/PlayerContext.tsx:53-67 | Exactly one progress update and one playing flag: progress first for a loaded status, the playing flag first otherwise. The playing flag is loaded-and-playing. A loaded status reports its current time and its duration, or 0 when that is unknown; one that is not loaded reports position 0 and duration 0 |
| Context.PlayerProvider.constructor | src/contexts/PlayerContext.tsx:47-51 | The provider works on exactly the store and the façade it is given |
| Context.PlayerProvider.Mount | src/contexts/PlayerContext.tsx:69 | The store's listener holds the façade's status slot |
| Context.PlayerProvider.Unmount | src/contexts/PlayerContext.tsx:71-73 | The status slot is given the listener that does nothing |
| Context.PlayerProvider.PlaybackCallback | src/contexts/PlayerContext.tsx:53-67 | Afterwards the store's playing flag is loaded-and-playing. The reported time (0 when not loaded) and a positive duration are shown subject to the grace window; nothing else changes |
| Context.PlayerProvider.PlayNewTrack | src/contexts/PlayerContext.tsx:76-82 | The store shows the new track, and the façade then unloads the old sound and loads and plays the new one |
| Context.PlayerProvider.TogglePlayback | src/contexts/PlayerContext.tsx:84-90 | Pause when the store says playing, resume otherwise, never both; the store is untouched |
| Context.PlayerProvider.StartSeeking | src/contexts/PlayerContext.tsx:92-94 | Only the store's seeking flag changes, to true |
| Context.PlayerProvider.StopSeeking | src/contexts/PlayerContext.tsx:96-106 | Afterwards the position is the chosen one, no seek is in progress, the grace window starts at the finishing time, and the duration and track are unchanged. The façade seeks exactly once |
| Screen.NextIndex | src/screens/PlayerScreen.tsx:66-73 | None for an empty list; otherwise a valid index, one on, wrapping from the last to the first |
| Screen.PrevIndex | src/screens/PlayerScreen.tsx:121-128 | None for an empty list; otherwise i - 1 for a positive index and the last position for index 0, and valid exactly when the current index is at most the length |
| Screen.NextPrevInverse | src/screens/PlayerScreen.tsx:66-73 | On a valid index, previous after next and next after previous are the identity |
| Screen.NextPressesCycle | src/screens/PlayerScreen.tsx:66-73 | k presses of next from i land on (i + k) mod n |
| Screen.PrevPressesCycle | src/screens/PlayerScreen.tsx:121-128 | k presses of previous from i land on (i - k) mod n |
| Screen.NextPressesFullCircle | src/screens/PlayerScreen.tsx:66-73 | n presses of next return to the starting track |
| Screen.SyncedIndex | src/screens/PlayerScreen.tsx:53-58 | With a current track, the first position holding its id, or 0 when none does; without one, unchanged |
| Screen.NextRepeatMode | src/screens/PlayerScreen.tsx:200-208 | Each press changes the mode, and off goes to one first (so the cycle is off, one, all) |
| Screen.RepeatCycle | src/screens/PlayerScreen.tsx:200-208 | Three presses restore the mode and two never do |
| Screen.OnTrackFinish | src/screens/PlayerScreen.tsx:76-86 | Repeat-one replays the current track if there is one and never advances; the other modes advance to the next track round the list, or do nothing for an empty list |
| Screen.OffAndAllAgree | src/screens/PlayerScreen.tsx:76-86 | Repeat-off and repeat-all react alike, and from the last track both go to the first |
| Screen.ScreenState.constructor | src/screens/PlayerScreen.tsx:40-42 | Index 0 and repeat off |
| Screen.ScreenState.SyncCurrentIndex | src/screens/PlayerScreen.tsx:53-58 | The index becomes the synced index and stays 0 or a valid position |
| Screen.ScreenState.PressRepeat | src/screens/PlayerScreen.tsx:200-208 | The mode advances one step of the cycle |
| Screen.ScreenState.HandleNext | src/screens/PlayerScreen.tsx:66-73 | Nothing for an empty list; otherwise the track at (index + 1) mod n |
| Screen.ScreenState.HandlePrev | src/screens/PlayerScreen.tsx:121-128 | Nothing for an empty list; otherwise the track at (index - 1) mod n |
| Screen.JsRem | src/screens/PlayerScreen.tsx:90 | JavaScript's remainder: it has the dividend's sign and differs from it by a multiple of the divisor |
| Screen.FormatTime | src/screens/PlayerScreen.tsx:88-92 | For a non-negative time: the minutes `seconds / 60` in decimal, the only colon, then exactly two digits that read as `seconds % 60` |
| Screen.FormatTimeRoundTrip | src/screens/PlayerScreen.tsx:88-92 | The label of a non-negative time reads back as minutes × 60 + seconds, that is, as the time itself |
| Screen.FormatTimeExamples | src/screens/PlayerScreen.tsx:88-92 | 75 gives "1:15", 5 gives "0:05", and -5 gives "-1:0-5" |

## Left out

- Floating-point time: the millisecond ↔ second conversions in `getCurrentTrackPosition` and `seekToPosition` are not modelled. Positions are whole numbers, and `Math.floor` on the seconds in `formatTime` is the identity there.
- The seek gesture's fraction × duration and its `[0, 1]` clamp are not modelled. `PlayerProvider.StopSeeking` takes the resulting position as given.
- Context.PlayerProvider.StopSeeking: it uses the store's current duration for the progress update. The source uses the `duration` captured when the callback was last created, which can be stale.
- Context.PlayerProvider.PlaybackCallback: both dispatches share one `now`. The source reads the clock in the reducer for the progress update only, so this is the same.
- Context.StatusActions: the model reads the fields of expo-audio's `AudioStatus` (`currentTime`, `duration`, `playing`), as the listener in `PlayerContext.tsx` is typed. The façade actually forwards expo-av's `AVPlaybackStatus`, which has none of them. So at run time a loaded status gives progress with an undefined position and duration 0, and the playing flag is set to `undefined`.
- Context.PlayerProvider.PlaybackCallback: for the same reason, at run time the store's `isPlaying` stays falsy after every status, so `togglePlayback` always resumes. The model shows the behaviour the listener's declared type intends.
- JSON encoding of the cache file: it is taken to store and return the track list exactly.
- The file system (RNFS) is an abstract tree. `exists`, `readDir` and the two storage-root paths are its shape, and a listing that fails reads as empty.
- `toLowerCase` is modelled for ASCII letters only.
- Real async interleaving and the event loop: each awaited call is one atomic step. A call in flight is represented by the `isPlayingTrack` or `isScanning` flag being set on entry.
- Console logging, the permission prompts and `usePlayback`'s polling timer.
- The screens' rendering, navigation, theming and the progress-bar animation.
- The expo-av and expo-audio libraries themselves. Sounds are opaque handles whose requests succeed or fail as the parameters say.
- The screen's initial effect that loads `allTracks` is the `ScreenState` constructor argument. The list is loaded once when the screen mounts.
- The params-driven `playNewTrack` effect of the player screen is not modelled.
