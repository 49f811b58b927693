# SoundSphere playback and library core, in Dafny

This project models the two state cores of the SoundSphere music-streaming demo:

- **The playback engine** (`contexts/music-context.tsx`). `Music.Reduce` is the reducer `musicReducer`. It is a total function from a player state and an action to the next player state. It covers current track, queue, index, play/loading flags, time, duration, volume, buffered amount, shuffle flag and repeat mode. `Music.SeekTo` is the clamp in `seekTo`. `Music.OnMediaEvent` gives, for each media-element event, the state the provider's handler leaves behind. Each handler is a composition of reducer steps in the order the handler dispatches them. `Music.OnTrackChange` does the same for the track-change effect.
- **The library store** (`contexts/playlist-context.tsx`). `Library.PlaylistStore` is a class with the provider's two state cells, `playlists` and `likedSongs`. Its methods replace these cells the way the provider's setters do. Each operation's computation is a pure function over the sequences: `Create`, `Update`, `AddTrack`, `RemoveTrack`, `Delete`, `GetById`, `ToggleLiked`, `IsLiked` and `Restore`. The id generator, the clock and the random cover choice are parameters: `freshId`, `now: nat` and `cover < |AlbumCovers|`.

Supporting modules:

- `ArrayOps` holds the JavaScript array methods the cores are written with: `findIndex`, `find`, `some` and `filter`. Each has its own specification.
- `Strings` holds `trim` and `toLowerCase`.
- `Tracks` holds the shared `Track` record.
- `Results` holds `Option` and `Result`.

Two invariants are proved:

- **Queue invariant** (`Music.QueueInvariant`). Either the queue is empty or -1 ≤ index < |queue|. When the index is inside the queue, the current track has the id of the track at that index. `Music.Reduce` and `Music.OnMediaEvent` preserve it, and so does every sequence of actions from the initial state. Volume stays in [0, 1] the same way.
- **Library invariant** (`Library.WellFormed`). Playlist ids are pairwise distinct, and titles are pairwise distinct ignoring case. Update, add, remove and delete preserve it. Create preserves it when the id is fresh and the title is already trimmed, which is how the create dialog calls it (`components/create-playlist-dialog.tsx:206`).

The model follows the code where the code does something unexpected:

- `TOGGLE_PLAY` flips `isPlaying` even when no track is loaded.
- `PREVIOUS_TRACK` at index 0, within the first 3 seconds and without repeat-all, marks the first track as loading and zeroes time and duration.
- `PLAY_TRACK` without a queue uses `[track]`. It does not look at the current queue. A given empty queue is kept, because an empty array is truthy in JavaScript.
- An `error` event only clears `isLoading`. It leaves `isPlaying` as it was.
- The create description defaults to "Created by you" only when no description is passed. A passed empty string gives an empty description.
- An update with a blank description keeps the old description as it was, not a trimmed copy.
- `updatePlaylist` rejects a colliding title only when the `title` it was passed is a non-empty string.
- `createPlaylist` checks for duplicates using the title as passed, before trimming. `Library.CreateUntrimmedDuplicate` shows the consequence: creating " rock" next to "rock" succeeds, and the library then holds two playlists titled "rock". The only caller trims the title first, so the application never reaches this case.

## Model

| member | source | states |
|---|---|---|
| Music.Reduce | contexts/music-context.tsx:58-132 | every action preserves the queue/index/current-track invariant and keeps volume in [0, 1] |
| Music.InitialStateInvariant | contexts/music-context.tsx:44-56 | the initial state (empty queue, index 0, volume 0.7) satisfies both invariants |
| Music.ReduceAllInvariant | contexts/music-context.tsx:58-132 | any sequence of actions applied to a valid state yields a valid state |
| Music.Reachable | contexts/music-context.tsx:44-132 | every state reachable from the initial state satisfies the queue invariant and has volume in [0, 1] |
| Music.PlayTrackEffect | contexts/music-context.tsx:60-72 | PLAY_TRACK: queue is the given one or [track]; index is the first position with the track's id, or -1 exactly when there is none; paused, loading, time and duration 0; volume, repeat, shuffle and buffered unchanged |
| Music.NextTrackNoOp | contexts/music-context.tsx:75-83 | NEXT_TRACK on an empty queue, or at the last index without repeat-all, returns the state unchanged |
| Music.NextTrackWraps | contexts/music-context.tsx:78-92 | NEXT_TRACK at the last index under repeat-all moves to index 0 with its track, paused, loading, time and duration 0, every other field unchanged |
| Music.NextTrackAdvances | contexts/music-context.tsx:77-92 | NEXT_TRACK before the end moves to index+1 with that queue entry as current track, paused, loading, time and duration 0; every other field (queue, volume, shuffle flag, repeat mode, buffered) is unchanged |
| Music.PreviousTrackEmptyQueue | contexts/music-context.tsx:93-94 | PREVIOUS_TRACK on an empty queue is a no-op |
| Music.PreviousTrackRestarts | contexts/music-context.tsx:95-98 | more than 3 s in, PREVIOUS_TRACK only sets the time to 0 |
| Music.PreviousTrackStepsBack | contexts/music-context.tsx:99-111 | otherwise it moves to index-1, wrapping to the last index under repeat-all and to 0 otherwise, with that queue entry as current track, paused, loading, time and duration 0 even when the index stays 0; every other field is unchanged |
| Music.SetVolumeClamps | contexts/music-context.tsx:116-117 | SET_VOLUME stores max(0, min(1, v)): in range values kept, below 0 gives 0, above 1 gives 1, nothing else changes |
| Music.TogglePlayInvolution | contexts/music-context.tsx:73-74 | TOGGLE_PLAY flips isPlaying only, with or without a current track, and twice is the identity |
| Music.ToggleShuffleInvolution | contexts/music-context.tsx:118-119 | TOGGLE_SHUFFLE flips the flag only (queue untouched) and twice is the identity |
| Music.NextRepeatModeCycles | contexts/music-context.tsx:120-124 | the indexOf-based successor maps none to one, one to all, all to none |
| Music.ToggleRepeatThrice | contexts/music-context.tsx:120-124 | TOGGLE_REPEAT changes only the mode, always to a different one, and three applications are the identity |
| Music.PlayThenNext | contexts/music-context.tsx:60-92 | playing A with queue [A, B] and then skipping gives current track B at index 1 |
| Music.SeekTo | contexts/music-context.tsx:145-155 | seekTo changes only the time; with a non-negative duration the new time lies in [0, duration], is the target when in range, the duration above it and 0 below it |
| Music.SeekToIdempotent | contexts/music-context.tsx:145-155 | seeking twice to the same position equals seeking once; seeking to the current position when it is inside [0, duration] leaves the state unchanged |
| Music.OnMediaEvent | contexts/music-context.tsx:162-264 | every media-event handler, and the play-failure revert, preserves both invariants |
| Music.EndedFollowsRepeatMode | contexts/music-context.tsx:199-206 | on `ended`, repeat-one leaves the reducer state unchanged; any other mode gives exactly NEXT_TRACK's result |
| Music.CanPlayStarts | contexts/music-context.tsx:181-190 | `canplay` records the duration, clears loading, and ends up playing exactly when it was playing or a track is set |
| Music.LoadStartResets | contexts/music-context.tsx:213-217 | `loadstart` sets loading and zeroes time and duration, nothing else |
| Music.MediaErrorStopsLoading | contexts/music-context.tsx:208-211 | `error` clears loading, nothing else |
| Music.PlayRejectedReverts | contexts/music-context.tsx:258-264 | a rejected play() after TOGGLE_PLAY restores the state before the toggle |
| Music.OnTrackChange | contexts/music-context.tsx:279-291 | with a current track, the effect resets time and duration to 0 and changes nothing else; with no track it changes nothing; the queue invariant is kept |
| ArrayOps.FindIndex | contexts/music-context.tsx:62 | findIndex: -1 exactly when no element passes, otherwise a passing position with no passing element before it |
| ArrayOps.Find | contexts/playlist-context.tsx:222 | find: nothing exactly when no element passes, otherwise the first passing element |
| ArrayOps.Any | contexts/playlist-context.tsx:195 | some: true exactly when some element passes |
| ArrayOps.Filter | contexts/playlist-context.tsx:185 | filter: every survivor passes and was in the input; every passing element survives |
| ArrayOps.FilterAppend | contexts/playlist-context.tsx:185 | filtering distributes over concatenation, so survivors keep their relative order |
| ArrayOps.FilterKeepsAll | contexts/playlist-context.tsx:211 | a filter every element passes returns the input |
| ArrayOps.FilterIdempotent | contexts/playlist-context.tsx:211 | filtering twice equals filtering once |
| ArrayOps.FilterPairwise | contexts/playlist-context.tsx:211 | filtering preserves any property that holds of every ordered pair |
| Strings.TrimStart | contexts/playlist-context.tsx:120 | drops exactly the leading whitespace: a suffix not starting with whitespace, everything before it whitespace |
| Strings.TrimEnd | contexts/playlist-context.tsx:120 | drops exactly the trailing whitespace |
| Strings.Trim | contexts/playlist-context.tsx:90 | trim: the result is a slice of the input with only whitespace before and after it, and no whitespace at either end; empty exactly when the input is all whitespace |
| Strings.TrimPieces | contexts/playlist-context.tsx:90 | what the start-trim and then the end-trim cut off is blank, and what remains is the middle slice of the input |
| Strings.TrimIdempotent | contexts/playlist-context.tsx:141 | trimming a trimmed title changes nothing |
| Strings.LowerChar | contexts/playlist-context.tsx:95 | an ASCII capital maps to the lower-case letter at the same alphabet position; every other character is unchanged; the result is never an ASCII capital |
| Strings.ToLowerCase | contexts/playlist-context.tsx:95 | toLowerCase keeps the length and lowers each character |
| Strings.EqualsIgnoreCaseBlank | contexts/playlist-context.tsx:95 | titles equal up to case are both blank or both not |
| Library.Create | contexts/playlist-context.tsx:88-133 | fails with TitleRequired exactly when the title is blank, with DuplicateName exactly when it is not blank and some title equals the untrimmed title ignoring case; otherwise a playlist with the given id, trimmed non-empty title, trimmed description (default "Created by you"), a cover from the list, no tracks and createdAt = updatedAt = now |
| Library.AfterCreate | contexts/playlist-context.tsx:128-131 | on success exactly one playlist is appended and the earlier ones are unchanged; on failure the list is unchanged |
| Library.CreateWellFormed | contexts/playlist-context.tsx:94-126 | with a fresh id and a trimmed title, creation keeps ids and case-insensitive titles unique |
| Library.AppendWellFormed | contexts/playlist-context.tsx:128-131 | appending a playlist compatible with every existing one keeps the invariant |
| Library.CreateUntrimmedDuplicate | contexts/playlist-context.tsx:95-120 | the duplicate check on the untrimmed title admits " rock" beside "rock", producing two equal titles |
| Library.GetAppended | contexts/playlist-context.tsx:221-223 | a playlist appended under a fresh id is what getPlaylistById returns for that id |
| Library.CreateThenGet | contexts/playlist-context.tsx:118-133 | a created playlist is retrievable by its id |
| Library.CreateTwiceIgnoringCase | contexts/playlist-context.tsx:94-98 | after creating a trimmed title, creating it again in any letter case fails with DuplicateName |
| Library.Merge | contexts/playlist-context.tsx:149-155 | an update keeps id, image, tracks and creation time, stamps the update time, and takes the trimmed title and description only when given and not blank |
| Library.TrimmedOr | contexts/playlist-context.tsx:154-155 | the trimmed value when given and not blank, otherwise the old value |
| Library.Update | contexts/playlist-context.tsx:136-163 | rejected (DuplicateName) exactly when a non-empty title is passed and a playlist with another id has the resulting title ignoring case; otherwise same length, non-targets unchanged, targets keep id/image/tracks/createdAt, get the merged title and description and updatedAt = now |
| Library.UpdateUnknownId | contexts/playlist-context.tsx:137-161 | an id no playlist has leaves the list unchanged |
| Library.UpdateBlankKeepsOld | contexts/playlist-context.tsx:154-155 | an absent or blank title or description keeps the old value |
| Library.UpdateWellFormed | contexts/playlist-context.tsx:140-148 | a successful update keeps ids and case-insensitive titles unique |
| Library.SameKeysWellFormed | contexts/playlist-context.tsx:165-191 | a transform that keeps every id and title in place keeps the invariant |
| Library.AddTrack | contexts/playlist-context.tsx:165-177 | targets get old tracks ++ [track] (no dedup) and updatedAt = now; all others unchanged |
| Library.RemoveTrack | contexts/playlist-context.tsx:179-191 | targets get their tracks filtered by id and updatedAt = now, even when nothing is removed; all others unchanged |
| Library.AddRemoveUnknownId | contexts/playlist-context.tsx:165-191 | add and remove with an unknown playlist id are no-ops |
| Library.RemoveTrackContents | contexts/playlist-context.tsx:185 | no copy of the removed id survives, every other track survives, and the survivors keep their order |
| Library.AddThenRemove | contexts/playlist-context.tsx:171-185 | adding a track then removing its id equals removing its id |
| Library.AddRemoveWellFormed | contexts/playlist-context.tsx:165-191 | add and remove keep the library invariant |
| Library.Delete | contexts/playlist-context.tsx:208-213 | no playlist with the id remains and every other playlist does |
| Library.DeleteKeepsOrder | contexts/playlist-context.tsx:211 | delete distributes over concatenation, so the surviving playlists keep their order |
| Library.DeleteIdempotent | contexts/playlist-context.tsx:208-213 | deleting twice equals deleting once; deleting an absent id changes nothing |
| Library.DeleteWellFormed | contexts/playlist-context.tsx:211 | delete keeps the library invariant |
| Library.GetById | contexts/playlist-context.tsx:221-223 | nothing exactly when no playlist has the id, otherwise the first playlist with it |
| Library.DeleteThenGet | contexts/playlist-context.tsx:208-223 | after delete, getPlaylistById finds nothing for that id |
| Library.IsLiked | contexts/playlist-context.tsx:204-206 | isTrackLiked is true exactly when some liked track has the id |
| Library.ToggleLiked | contexts/playlist-context.tsx:193-202 | a liked track has all its copies removed; an absent one is appended |
| Library.ToggleFlips | contexts/playlist-context.tsx:193-206 | one toggle flips the track's liked status and no other id's |
| Library.ToggleTwice | contexts/playlist-context.tsx:193-206 | two toggles restore every id's liked status, and the exact sequence when the track started absent |
| Library.ToggleKeepsIdsUnique | contexts/playlist-context.tsx:193-202 | liked songs with unique ids keep unique ids after a toggle |
| Library.Restore | contexts/playlist-context.tsx:48-77 | load keeps the cell when nothing is stored, falls back to [] when parsing fails, otherwise takes the parsed value |
| Library.PlaylistStore.constructor | contexts/playlist-context.tsx:44-45 | both cells start empty |
| Library.PlaylistStore.Load | contexts/playlist-context.tsx:47-77 | each cell becomes the restored value |
| Library.PlaylistStore.CreatePlaylist | contexts/playlist-context.tsx:88-134 | returns Create's result, appends it on success, leaves liked songs alone, keeps the invariant for a trimmed title and fresh id |
| Library.PlaylistStore.UpdatePlaylist | contexts/playlist-context.tsx:136-163 | replaces the playlists by Update's result only on success, leaves liked songs alone, keeps the invariant |
| Library.PlaylistStore.AddToPlaylist | contexts/playlist-context.tsx:165-177 | playlists become AddTrack of the old ones; liked songs unchanged; invariant kept |
| Library.PlaylistStore.RemoveFromPlaylist | contexts/playlist-context.tsx:179-191 | playlists become RemoveTrack of the old ones; liked songs unchanged; invariant kept |
| Library.PlaylistStore.ToggleLikedSong | contexts/playlist-context.tsx:193-202 | liked songs become ToggleLiked of the old ones, flipping the track's status; playlists unchanged |
| Library.PlaylistStore.IsTrackLiked | contexts/playlist-context.tsx:204-206 | true exactly when a liked song has the id |
| Library.PlaylistStore.DeletePlaylist | contexts/playlist-context.tsx:208-219 | always returns true; playlists become Delete of the old ones; invariant kept |
| Library.PlaylistStore.GetPlaylistById | contexts/playlist-context.tsx:221-223 | nothing exactly when no playlist has the id, otherwise a stored playlist with that id |
| Library.PlaylistStore.SetPlaylists | contexts/playlist-context.tsx:44 | replaces the playlists and nothing else |

## Left out

- The media element is not modelled: `load()`, `play()`, `pause()`, assignments to `audio.currentTime` and `audio.volume`, and event registration are browser calls. Only their effect on the reducer state is kept. The rewind-and-replay under repeat-one happens on the element, so it changes no reducer state here.
- The NaN and Infinity guards and the `duration || 0` fallback are not modelled. Times, durations, volume and buffered amount are `real` and have no special values. `Progress` carries the end of the last buffered range, or nothing when there is no range.
- The `seekTo` no-op when the audio element is not mounted is not modelled. The element is always rendered.
- Music.OnTrackChange: the source's effect (contexts/music-context.tsx:280-291) runs only when `currentTrack` becomes a different object. So do the handler re-registration (line 251) and the `src` binding (line 296). Two cases therefore reload nothing even though the reducer marks the track as loading with time and duration 0. The first is `PREVIOUS_TRACK` at index 0 within the first 3 seconds without repeat-all. The second is `NEXT_TRACK` under repeat-all on a one-track queue. In both, the reducer sets the same queue object the caller already passed as the current track, so `audio.load()` is not called and no `loadstart` or `canplay` follows; the element is only paused where it is. The model does not track object identity, so `OnTrackChange` applies to every state with a current track.
- Music.CanPlayStarts: describes only the first `canplay` after a track change. The `canplay` handler is registered again only when `repeatMode` or `currentTrack` changes (contexts/music-context.tsx:251). So the `state.isPlaying` it tests (line 187) is the value captured at the last change of `currentTrack` or `repeatMode`. After a track change that value is false (lines 68, 88, 107), so a later `canplay` on the same track dispatches TOGGLE_PLAY and pauses a track that is playing. After a repeat-mode toggle during playback the captured value is true, and a later `canplay` does not pause. `Music.OnMediaEvent` reads the current state instead, so it does not model that stale read.
- Stale reads between renders: the provider's setters queue updaters that run later, while three operations read the last rendered snapshot. `createPlaylist` checks for duplicates against the rendered `playlists` (contexts/playlist-context.tsx:95) but appends to the queued `prev` (line 128). `isTrackLiked` reads the rendered `likedSongs` (line 205). `getPlaylistById` reads the rendered `playlists` (line 222). The model assumes one operation per render, so every read sees the result of the previous operation.
- JSON serialisation and the writes to local storage after every change are not modelled. Loading is modelled as `Library.Restore`, taking a parsed value, a parse failure or a missing key. Timestamps are clock readings (`nat`), so rebuilding a `Date` is the identity.
- `Date.now()`/`Math.random()` ids, the random cover and `new Date()` are parameters. The model does not generate ids or check that they are unique. The invariant lemmas assume a fresh id.
- Strings.Trim: removes space, tab, line feed, carriage return, vertical tab, form feed, U+00A0, U+FEFF, U+2028 and U+2029. The other Unicode space separators that JavaScript's `trim` also removes are not modelled.
- Strings.ToLowerCase: lowers ASCII capitals only. Full Unicode case mapping is not modelled.
- `updatePlaylist` copies every field of its `updates` object into the playlist. The model takes only an optional title and description, which is all the edit dialog passes. The optional `isLiked` playlist field is never set by the store and is not modelled.
- `deletePlaylist`'s `catch` branch is not modelled. Nothing inside its state update can throw, so it always returns true.
- An exception thrown inside a React state updater surfaces at render time, not at the call. The model returns it as `Failure(DuplicateName)` from the update and leaves the list unchanged.
- Library.PlaylistStore.GetPlaylistById: its contract says a stored playlist with the id, not that it is the first one. Library.GetById states the first-match property.
