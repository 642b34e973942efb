# Music player: playlist store and playback sequencer, in Dafny

This project models the two stateful parts of a small personal music-streaming web application, and the pure helpers they use.

- **Server playlist store** (`server.js`). A collection of playlist documents. Each has a unique name and an ordered list of embedded song records `{id, name, url, fileName}`. Beside it is an object store that holds the audio files.
  - The model is the class `Catalog.Store`. Its field `playlists` maps each name to its songs. Its field `blobLog` records, in order, the object-store puts and deletes the routes issue.
  - Each route handler is a method: list all playlists, upload, rename a song, delete a song, create a playlist, delete a playlist.
  - Each method's new state is tied to a function of the old state (`Appended`, `Renamed`, `Pulled`, `SnapshotOf`, …). Those functions carry what the route promises, and lemmas relate them to each other.
- **Object key and public URL** (`server.js:67-92`).
  - The key is the upload time, a dash, and the cleaned file name (`FileNames`).
  - The URL is the public base, a slash, and the key percent-encoded as `encodeURIComponent` does (`UriComponent`).
  - The model proves that decoding the URL's last segment gives back the key, and that the key reads back as the upload time and the cleaned name.
- **Client playback sequencer** (`public/app.js`). The class `Player.Sequencer` holds the module-level variables `currentPlaylist`, `currentSongs`, `currentIndex`, `isPlaying` and `isShuffle`. It also holds what the code relies on about the audio element: its source (`src`, None when unloaded) and whether the last request sent to it was `play()` (`playRequested`).
  - Each handler is a method whose new state is a step function of the old state (`PlayStep`, `ToggleStep`, `PreviousStep`, `NextStep`, `ShuffleStep`, `SwitchStep`, `ReloadStep`).
  - `Math.random()` is a parameter in [0, 1). The shuffle draw is `Math.floor(random * n)` as in the code.
  - `formatTime` is modelled over whole seconds (`TimeFormat`). The counting loop of `handleUpload` is `Player.CountUploads`.
- **Inputs the model takes as parameters.** Clock readings, storage outcomes, fetched snapshots and the selector's value are parameters of the operations that use them. Audio playback itself is outside the model.

Facts about the code that the model keeps as they are:
- Songs are embedded per playlist; there is no catalog of songs shared by id.
- `default` is an ordinary playlist and can be deleted.
- Shuffle draws any position, including the current one; there is no shuffle history and no repeat mode.
- Renaming an unknown id changes nothing. Deleting an unknown id leaves the playlists unchanged but still deletes the object named by `fileName`.
- Listing the playlists adds an empty `default` to the reply only. It does not store one.

## Model

| member | source | states |
|---|---|---|
| `Decimal.NatToString` | server.js:88 | a number's decimal form (`toString()`) is at least one digit, with no leading zero unless the number is 0 |
| `Decimal.ParseNatToString` | server.js:88 | reading a rendered number back gives the number, so the id and the key prefix determine the clock readings |
| `TimeFormat.PadTwo` | public/app.js:276 | `padStart(2, '0')` of a number below 100 is exactly two digits with that value |
| `TimeFormat.FormatTime` | public/app.js:272-277 | zero gives `"0:00"`; otherwise the label is digits, a colon, and exactly two digits whose value is below 60 |
| `TimeFormat.FormatTimeFields` | public/app.js:274-276 | the minutes field is the decimal form of `floor(s/60)` (no leading zero unless it is `0`) and the seconds field reads back as `s mod 60` |
| `TimeFormat.FormatTimeReadsBack` | public/app.js:272-277 | reading a label as 60 × minutes + seconds gives back the position it was made from |
| `TimeFormat.FormatTimeInjective` | public/app.js:272-277 | distinct positions get distinct labels |
| `FileNames.StripForbidden` | server.js:67 | no `\ / : * ? " < > \|` remains and the name never grows |
| `FileNames.StripForbiddenKeepsOthers` | server.js:67 | every character that is not forbidden is kept exactly as often as it occurs |
| `FileNames.StripForbiddenConcat` | server.js:67 | deleting forbidden characters distributes over concatenation, so it works character by character in order |
| `FileNames.CollapseSpaces` | server.js:67 | no JavaScript `\s` character remains, the name never grows, and no forbidden character is introduced |
| `FileNames.CollapseSpacesRun` | server.js:67 | a whitespace run between non-whitespace parts becomes exactly one `_`, and the two sides are collapsed independently |
| `FileNames.CleanName` | server.js:67 | the cleaned name has neither forbidden characters nor whitespace and is no longer than the original |
| `FileNames.CleanNameIdempotent` | server.js:67 | cleaning a cleaned name changes nothing |
| `FileNames.SafeFileName` | server.js:68 | the object key contains no forbidden character and no whitespace |
| `FileNames.SafeFileNameSplits` | server.js:68 | the key splits back into the upload time (the digits before the first dash) and the cleaned name |
| `UriComponent.EncodeComponent` | server.js:85 | the encoded key holds only unreserved characters, `%` and upper-case hex digits, and a key of unreserved characters is unchanged |
| `UriComponent.DecodeEncode` | server.js:85 | decoding an encoded component (percent-decoding, then strict UTF-8 decoding) gives back the original text |
| `Catalog.SnapshotOf` | server.js:50-53 | the reply maps every stored playlist to its songs unchanged and always has `default`, which is empty when not stored |
| `Catalog.Store.GetPlaylists` | server.js:48-56 | the loop over the documents builds exactly `SnapshotOf(playlists)` |
| `Catalog.UploadTarget` | server.js:95 | a missing or empty `playlistName` selects `default`; any other name selects itself |
| `Catalog.PublicUrl` | server.js:85 | the URL starts with the public base and one slash, and the rest decodes back to the key |
| `Catalog.NewSong` | server.js:87-92 | the record keeps the uploaded name; its `fileName` has no forbidden character and no whitespace; its URL is the public base, a slash and a segment decoding to its `fileName`; its id reads back as the second clock reading |
| `Catalog.Appended` | server.js:94-98 | the upsert-`$push` puts the song last in the target playlist, creating it when absent; every other playlist is unchanged |
| `Catalog.Store.Upload` | server.js:59-105 | with no file, or a failed object write, nothing changes. Otherwise the put of the key is logged before the record exists. A failed record write leaves the put in place (an orphaned object). Success appends `NewSong` to the target and returns it |
| `Catalog.NewSongNamesItsObject` | server.js:67-92 | the record's key reads back as the first clock reading and the cleaned name, and its URL's last segment decodes to that key |
| `Catalog.FirstMatch` | server.js:110 | the position of the first song with the id (the length if none); every earlier song has another id |
| `Catalog.RenameFirst` | server.js:110 | the first song with the id, and only it, gets the new name; the length, all other songs and all other fields are unchanged |
| `Catalog.RenameUnknownIdIsNoOp` | server.js:110 | renaming an id that no song has leaves the list unchanged |
| `Catalog.Renamed` | server.js:110 | only the named playlist can change; an unknown playlist changes nothing |
| `Catalog.Store.RenameSong` | server.js:108-112 | the new store is `Renamed(old store, …)` and no object-store effect is issued |
| `Catalog.PullAll` | server.js:116 | no song with the id remains; every other song is kept exactly as often as it occurs |
| `Catalog.PullAllConcat` | server.js:116 | removal distributes over concatenation, so the order of the kept songs is preserved |
| `Catalog.PullAllIdempotent` | server.js:116 | removing the same id twice removes nothing more |
| `Catalog.Pulled` | server.js:116 | only the named playlist can change; an unknown playlist changes nothing |
| `Catalog.RenameKeepsIds` | server.js:110-116 | deleting an id after renaming it leaves exactly what deleting it before the rename leaves |
| `Catalog.Store.DeleteSong` | server.js:114-119 | removes every song with the id from the named playlist only, then logs a delete of the supplied `fileName` whichever playlist was named |
| `Catalog.UploadThenDeleteSong` | server.js:94-117 | deleting a freshly uploaded song by its id from its playlist restores that playlist (which stays, empty, if the upload created it) |
| `Catalog.UploadVisibleInSnapshot` | server.js:50-98 | after an upload, the next listing shows the new song last in its playlist |
| `Catalog.Store.CreatePlaylist` | server.js:121-126 | succeeds exactly when the name is non-empty (the schema's `required`, line 25) and not taken (its `unique` index), adding an empty playlist; otherwise nothing changes |
| `Catalog.CreateThenDeletePlaylist` | server.js:121-137 | creating a new playlist and deleting it restores the store, and the deletion issues no object-store request |
| `Records.SongsOf` | public/app.js:84 | `data.playlists[name] \|\| []`: a listed playlist's songs, or none when the name is not listed |
| `Catalog.ListingReadsStore` | server.js:50-53 | what the client reads from a listing under a name is what the store holds under it, or nothing; the added empty `default` reads the same as its absence |
| `Catalog.Store.DeletePlaylist` | server.js:128-137 | for a stored name, logs one delete per member song's `fileName`, in order, then removes that playlist only; an absent name changes nothing |
| `Catalog.DeletedPlaylistInSnapshot` | server.js:128-137 | after deleting a playlist it is gone from the listing, except that `default` then shows as empty |
| `Player.JsRemainder` | public/app.js:229 | JavaScript `%` (sign of the dividend) agrees with the mathematical remainder on the non-negative operands the sequencer uses |
| `Player.ShufflePick` | public/app.js:238 | `Math.floor(Math.random() * n)` is a position in `[0, n)` |
| `Player.ShuffleReachesEvery` | public/app.js:238 | every position, the current one included, is reachable by some random value |
| `Player.Sequencer.constructor` | public/app.js:2-6 | the page-load state `Initial`: playlist `default`, no songs, position 0, not playing, shuffle off, no source loaded, no play request |
| `Player.PlayStep` | public/app.js:167-175 | no-op on an empty list; otherwise sets the position, loads that song's URL and raises the flag, whatever the element later makes of `play()` |
| `Player.Sequencer.PlaySong` | public/app.js:167-193 | the new state is `PlayStep(old state, index)` |
| `Player.ToggleStep` | public/app.js:210-224 | no-op on an empty list. Playing → paused. Paused with a source → playing. With no source it plays song 0 and then negates the flag, ending at position 0 with the flag down |
| `Player.Sequencer.TogglePlay` | public/app.js:210-224 | the new state is `ToggleStep(old state)` |
| `Player.ToggleStepIntended` | public/app.js:210-224 | as `ToggleStep`, except that with no source it ends playing song 0 with the flag up |
| `Player.Sequencer.TogglePlayIntended` | public/app.js:210-224 | the new state is `ToggleStepIntended(old state)` |
| `Player.ToggleStepLosesSync` | public/app.js:216-222 | the first press of play after page load requests playback of song 0 but leaves the flag down |
| `Player.ToggleTwice` | public/app.js:210-224 | with a source loaded and the flag matching the element, pressing play twice restores the state |
| `Player.PreviousStep` | public/app.js:227-231 | no-op on an empty list; otherwise plays position `(old - 1 + n) mod n`, which is in range even when the old position no longer is |
| `Player.Sequencer.PlayPrevious` | public/app.js:227-231 | the new state is `PreviousStep(old state)` |
| `Player.NextStep` | public/app.js:234-243 | no-op on an empty list; otherwise plays `(old + 1) mod n` with shuffle off, or the drawn position with shuffle on, always in range |
| `Player.Sequencer.PlayNext` | public/app.js:234-243 | the new state is `NextStep(old state, random)` |
| `Player.PreviousUndoesNext` | public/app.js:227-243 | with shuffle off and the position in range, previous after next, and next after previous, return to the starting position |
| `Player.ShuffleStep` | public/app.js:246-253 | flips the shuffle flag and changes nothing else |
| `Player.Sequencer.ToggleShuffle` | public/app.js:246-253 | the new state is `ShuffleStep(old state)` |
| `Player.ShuffleTwice` | public/app.js:246-253 | toggling shuffle twice restores the state |
| `Player.SwitchStep` | public/app.js:92-113 | selects the new name at once. With the snapshot it loads that playlist's songs (empty if absent), unloads and pauses the element, and resets to position 0 with the flag down. A failed fetch leaves only the new name |
| `Player.Sequencer.HandlePlaylistChange` | public/app.js:92-113 | the new state is `SwitchStep(old state, value, snapshot)` |
| `Player.ReloadStep` | public/app.js:60-89 | keeps the selector's playlist, or the current one when the selector is empty, and reloads its songs. Position, flags and element are untouched. A failed fetch changes nothing |
| `Player.Sequencer.LoadPlaylists` | public/app.js:60-89 | the new state is `ReloadStep(old state, selector value, snapshot)` |
| `Player.TransitionsKeepInvariants` | public/app.js:167-253 | every transition except `togglePlay` as written keeps the flag equal to the last request to the element; every transition keeps the flag down while no source is loaded |
| `Player.Successes` | public/app.js:298-319 | the count of accepted uploads is at most the number of files, and equals it exactly when every request got an ok response |
| `Player.CountUploads` | public/app.js:292-319 | an empty selection returns at once; otherwise the loop yields the number of ok responses and the number of files shown in the summary |

## Findings

| source | as written | input that shows it | evidently intended | confidence | as-written member | corrected member |
|---|---|---|---|---|---|---|
| public/app.js:216-222 | with no source loaded, `togglePlay` calls `playSong(0)`, which raises `isPlaying`, and then negates `isPlaying`, so the button shows "paused" while song 0 is playing | the first press of the play button after the page loads, with a non-empty playlist (`isPlaying` false, no source) | the flag stays up after playback starts, as after every other start of playback; the next press then pauses | high (not executed) | `Player.ToggleStepLosesSync` (about `Player.ToggleStep`) | `Player.ToggleStepIntended`, with the flag proved to match the element in `Player.TransitionsKeepInvariants` |

## Left out

- DOM and browser plumbing are not modelled. This covers `renderSongList`, `escapeHtml`, `updatePlayButton`, `updateAlbumArt`, `extractAlbumArt`, `showToast`, Media Session metadata, service-worker registration, `confirm`/`prompt`, and the wiring of event listeners. None of them changes the sequencer's state.
- `updateProgress`, `updateDuration` and `seek` are not modelled. They are floating-point arithmetic on the media element's time.
- `TimeFormat.FormatTime`: takes whole seconds. The source floors the minutes and the seconds field separately; for a non-negative input that gives the same label as formatting `floor(seconds)`. The `NaN`, `undefined` and `Infinity` inputs a media element can report are not modelled.
- Network and JSON plumbing are not modelled. A fetched snapshot is a parameter, with None for a failed request. The client's `deleteSong` sends a request and then reloads. The client's `createNewPlaylist` (public/app.js:354-387) is not modelled. After a successful create it sets `currentPlaylist` to the trimmed name (public/app.js:373) before fetching again. So when that second fetch fails it still switches the playlist, which `LoadPlaylists` with a failed fetch does not do.
- Express routing, multer (including its 50 MB limit), CORS, static serving and the MongoDB connection are not modelled.
- Object-store SDK calls appear only as `Put`/`Delete` entries in `blobLog`. A failed upload write is modelled as writing nothing; a partially written multipart upload is not modelled.
- `Catalog.Store.RenameSong`, `Catalog.Store.DeleteSong`, `Catalog.Store.DeletePlaylist`: storage failures are not modelled. These routes have no error handling, so a failed call would abandon the request after the effects already issued.
- The latin1-to-UTF-8 re-decoding of the uploaded file's name (server.js:64) is not modelled. It depends on byte encodings, so `Upload` takes the decoded name.
- `Date.now()` and `Math.random()` are parameters. The two clock readings of an upload (key and id) are independent.
- Mismatches between client and server are not modelled. The form fields are `file`/`playlist` on one side and `audio`/`playlistName` on the other, and the client calls `/api/delete` where the server serves `/api/music`. Each side is modelled on its own terms.
- `Player.Sequencer.HandlePlaylistChange`: `audio.src = ''` is modelled as unloading the source. A browser reflects an empty `src` as the page's own URL, which `togglePlay` would then treat as loaded.
- The `_id` Mongoose adds to each embedded song is not modelled. Neither are names with special meaning to JavaScript objects (such as `__proto__`), nor concurrent requests.
- `Catalog.Store.CreatePlaylist`: takes the name as a string. Mongoose stores a number or boolean name in its string form (`"5"`, `"true"`), which corresponds to calling it with that string. A missing or null name, an array or a plain object fails the cast or the `required` check, as the empty name does; those request shapes are not modelled.
