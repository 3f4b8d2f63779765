# OpenSpotify playback, library and account core in Dafny

OpenSpotify is a music catalogue and streaming web application: a Next.js
client talks to an ASP.NET Core API backed by Entity Framework. This project
models the parts of it that carry logic of their own:

- the client's Zustand stores: the player store (`Player`), the liked-track
  store (`LibraryStore`) and the sidebar's playlist store (`SidebarStore`).
  Each store is a class whose methods overwrite its fields. The player's
  actions are also given as pure `After...` functions on a `PlayerState`
  snapshot, and the lemmas are stated over those functions;
- the audio sink (`AudioProvider`). It keeps one audio element in step with
  the player store. `Reaction` gives the commands issued for a
  (previous, new) pair of snapshots. The class `AudioSink` is the element
  together with the effect's subscription and listeners;
- the small pure helpers: `resolveImageUrl` (`Utils`), `cn` and the
  skeleton's class string (`Skeleton`), and the clock digits of
  `AnimatedTime`;
- the liked-songs page (`LikedPage`): the duration formatter, the playback
  queue built on a row click, and the local removal of an unliked row;
- the API controllers for likes (`LibraryController`), playlists
  (`PlaylistsController`) and search (`SearchController`). They work over
  an in-memory `Catalog.Database` whose tables are sequences in table
  order. Its `Valid()` predicate holds the primary and composite keys and
  the foreign keys the controllers rely on;
- the Argon2id password hasher's storage format (`PasswordHasher`): base 64
  (`Base64`, RFC 4648 section 4) of a 16-byte salt followed by a 16-byte
  hash. The key derivation function and the random salt are parameters.

The store has no shuffle, no sorting, no repeat mode and no clamping of the
volume, the time or the seek position, so the model has none of them either.
Re-selecting the current track restarts it rather than toggling it.
`setTrack` does not require the track to be in the queue it is given.
`Player.MembershipPreserved` states when queue membership does hold.

## Model

| member | source | states |
|---|---|---|
| Player.FindIndex | src/stores/playerStore.ts:69 | The result is the first index whose entry has the identifier, or -1 when no entry has it |
| Player.AfterSetTrack | src/stores/playerStore.ts:49-57 | Starts `track` from time 0 with duration 0. It queues the playlist when given, even an empty one, and `[track]` otherwise. Volume is kept and the result is consistent |
| Player.AfterTogglePlayPause | src/stores/playerStore.ts:59-63 | Flips `isPlaying` exactly when a track is current, otherwise changes nothing. It keeps `isPlaying ==> currentTrack != null` |
| Player.AfterPlayNext | src/stores/playerStore.ts:65-75 | With no current track it changes nothing. A current identifier absent from the queue makes the player idle. If it first occurs at index i, entry i+1 plays with nothing else changed, or the player goes idle when i is the last index. Time, duration and volume are kept, as is consistency |
| Player.AfterPlayPrevious | src/stores/playerStore.ts:77-85 | Nothing changes with no current track, with an identifier absent from the queue, or when it first occurs at index 0 (no wrap-around). If it first occurs at i > 0, entry i-1 plays with nothing else changed. The queue, time, duration and volume are always kept |
| Player.AfterClearPlayer | src/stores/playerStore.ts:87-89 | The idle triple (no track, empty queue, not playing). Time, duration and volume are untouched |
| Player.FindIndexOfEntry | src/stores/playerStore.ts:69 | In a queue with distinct identifiers, the lookup of entry k's identifier finds k |
| Player.MembershipPreserved | src/stores/playerStore.ts:49-89 | Queue membership of the current track is established by `setTrack` when its playlist is absent or contains the track. Every other action preserves it |
| Player.PreviousThenNext | src/stores/playerStore.ts:65-85 | From any entry but the first, previous then next returns to the same track and queue |
| Player.NextThenPrevious | src/stores/playerStore.ts:65-85 | From any entry but the last, next then previous returns to the same track |
| Player.WalkQueue | src/stores/playerStore.ts:65-75 | In a queue without repeated identifiers, n steps of `playNext` from entry k, stopping short of the end, play entry k+n |
| Player.WalkPastEnd | src/stores/playerStore.ts:65-75 | One step more than there are entries left after entry k leaves the player idle: playback never wraps around to the first entry |
| Player.NextFromEntry | src/stores/playerStore.ts:65-75 | In a queue without repeated identifiers, `playNext` from entry j plays entry j+1 and changes nothing else. From the last entry it leaves the player idle |
| Player.PlayerStore.constructor | src/stores/playerStore.ts:34-40 | The initial state: no track, empty queue, paused, time 0, duration 0, volume 0.75 |
| Player.PlayerStore.SetVolume | src/stores/playerStore.ts:41 | Stores the volume as given, with no clamping, and touches no other field |
| Player.PlayerStore.SetDuration | src/stores/playerStore.ts:43 | Stores the duration as given and touches no other field |
| Player.PlayerStore.SetCurrentTime | src/stores/playerStore.ts:44 | Stores the time as given and touches no other field |
| Player.PlayerStore.Seek | src/stores/playerStore.ts:45-47 | The store's default `seek` changes no field |
| Player.PlayerStore.SetTrack | src/stores/playerStore.ts:49-57 | The new state is `AfterSetTrack` of the old one, and the invariant holds |
| Player.PlayerStore.TogglePlayPause | src/stores/playerStore.ts:59-63 | The new state is `AfterTogglePlayPause` of the old one, and the invariant holds |
| Player.PlayerStore.PlayNext | src/stores/playerStore.ts:65-75 | The new state is `AfterPlayNext` of the old one, so: idle when the current identifier is absent or last, otherwise the entry after its first occurrence plays. The invariant holds |
| Player.PlayerStore.PlayPrevious | src/stores/playerStore.ts:77-85 | The new state is `AfterPlayPrevious` of the old one, so: unchanged when the current identifier is absent or first, otherwise the entry before its first occurrence plays. The invariant holds |
| Player.PlayerStore.ClearPlayer | src/stores/playerStore.ts:87-89 | The new state is `AfterClearPlayer` of the old one, and the invariant holds |
| AudioProvider.Reaction | src/components/AudioProvider.tsx:19-45 | The source is set iff the current identifier changed. On such a change it becomes the stream URL followed by `load()` when the new track has audio, else `''` with no load. Play or pause is issued iff `isPlaying` changed, `play` exactly when playing with a track, and never both |
| AudioProvider.TrackChangeWhilePlaying | src/components/AudioProvider.tsx:23-43 | A track change while `isPlaying` stays true issues the source and `load()` but no `play()` |
| AudioProvider.NeverPlaysWhilePlaying | src/components/AudioProvider.tsx:35-42 | When the previous snapshot was playing, no reaction to any new snapshot calls `play()` |
| AudioProvider.SettersAreSilent | src/components/AudioProvider.tsx:23-43 | Changing only volume, time or duration issues no command |
| AudioProvider.StartFromPause | src/components/AudioProvider.tsx:23-43 | Starting a different track with audio from a paused player issues set source, load, play |
| AudioProvider.ReselectIssuesNothing | src/components/AudioProvider.tsx:23-43 | Re-selecting the current track while playing issues nothing, although the store restarts it |
| AudioProvider.EndOfQueue | src/components/AudioProvider.tsx:23-43 | When the last queued track ends while playing, the source is cleared and the element paused |
| AudioProvider.CallFor | src/components/AudioProvider.tsx:47-50 | Events map one to one to store calls: `timeupdate` to `setCurrentTime`, `loadedmetadata` to `setDuration`, `ended` to `playNext` |
| AudioProvider.AudioSink.constructor | src/components/AudioProvider.tsx:12-16 | A fresh element: no source, no listeners, not subscribed, nothing issued |
| AudioProvider.AudioSink.Mount | src/components/AudioProvider.tsx:19-54 | Subscribes and adds exactly the three listeners. Source, time and duration are untouched |
| AudioProvider.AudioSink.OnStateChange | src/components/AudioProvider.tsx:19-45 | Issues `Reaction` in order. The source changes only on a change of track identifier. A rejected `play()` changes nothing else |
| AudioProvider.AudioSink.Seek | src/components/AudioProvider.tsx:56-58 | The installed `seek` writes the time to the playhead unclamped and changes nothing else |
| AudioProvider.AudioSink.Dispatch | src/components/AudioProvider.tsx:47-54 | A listened event applies its store call to the store. An event without a listener changes nothing |
| AudioProvider.AudioSink.Unmount | src/components/AudioProvider.tsx:61-67 | Unsubscribes and removes exactly the three listeners. The element is otherwise untouched |
| LibraryStore.Flipped | src/stores/libraryStore.ts:31-40 | The identifier's membership is flipped and every other identifier keeps its membership |
| LibraryStore.RequestFor | src/stores/libraryStore.ts:42-47 | DELETE exactly when the track was liked before the toggle, otherwise POST, for that track |
| LibraryStore.AfterToggle | src/stores/libraryStore.ts:30-52 | Success leaves the flipped set. Failure restores the snapshot taken before the toggle |
| LibraryStore.ToggleTwice | src/stores/libraryStore.ts:30-52 | Two successful toggles restore the original set, and the second sends the opposite request |
| LibraryStore.LibraryStore.constructor | src/stores/libraryStore.ts:13 | The store starts with no liked identifiers |
| LibraryStore.LibraryStore.SetLikedTracks | src/stores/libraryStore.ts:15-17 | The set holds exactly the given identifiers, duplicates collapsed |
| LibraryStore.LibraryStore.FetchLikedTracks | src/stores/libraryStore.ts:19-28 | A fetched list replaces the set. A failed fetch leaves it unchanged |
| LibraryStore.LibraryStore.ToggleLikeTrack | src/stores/libraryStore.ts:30-52 | Sends `RequestFor` on the old set and leaves `AfterToggle` of the old set |
| LibraryStore.LibraryStore.IsLiked | src/stores/libraryStore.ts:54 | True iff the identifier is in the set |
| SidebarStore.WithoutPlaylist | src/stores/sidebarStore.ts:21-23 | Exactly the entries whose identifier differs are kept |
| SidebarStore.RemoveKeepsOrder | src/stores/sidebarStore.ts:21-23 | Removal from a concatenation is removal from each part, so the relative order of the rest is kept |
| SidebarStore.RemoveKeepsOthers | src/stores/sidebarStore.ts:21-23 | Every entry with another identifier keeps its number of occurrences |
| SidebarStore.RemoveAbsent | src/stores/sidebarStore.ts:21-23 | Removing an identifier that is not listed leaves the list equal to before |
| SidebarStore.SidebarStore.constructor | src/stores/sidebarStore.ts:18 | The store starts with no playlists |
| SidebarStore.SidebarStore.SetPlaylists | src/stores/sidebarStore.ts:19 | The list becomes exactly the given one |
| SidebarStore.SidebarStore.AddPlaylist | src/stores/sidebarStore.ts:20 | The new list is the old one with the playlist appended |
| SidebarStore.SidebarStore.RemovePlaylist | src/stores/sidebarStore.ts:21-23 | The new list is `WithoutPlaylist` of the old one |
| SidebarStore.SidebarStore.AddTrackToPlaylist | src/stores/sidebarStore.ts:24-31 | Posts the (playlist, track) request and rejects iff the request fails. The playlist list is not touched |
| Utils.ApiUrl | src/lib/utils.ts:1 | A set, non-empty variable is used as it is. Otherwise the default, which is absolute, is used |
| Utils.ResolveImageUrl | src/lib/utils.ts:3-13 | A missing or empty path gives the placeholder and an absolute path passes through. Any other path gets the base URL as prefix and keeps the path as suffix. The result is never empty |
| Utils.ResolveIdempotent | src/lib/utils.ts:1-13 | With an absolute base URL the result is absolute, and resolving it again changes nothing |
| Skeleton.Kept | src/components/ui/Skeleton.tsx:3-5 | `filter(Boolean)` keeps only non-empty strings |
| Skeleton.JoinSpaced | src/components/ui/Skeleton.tsx:3-5 | `join(' ')`: the first part leads, and the length is the parts' total plus one space per gap |
| Skeleton.JoinAppend | src/components/ui/Skeleton.tsx:3-5 | Joining two non-empty lists puts exactly one space between their joins |
| Skeleton.Cn | src/components/ui/Skeleton.tsx:3-5 | Empty exactly when no argument is truthy. A single truthy argument comes back unchanged |
| Skeleton.KeptEmpty | src/components/ui/Skeleton.tsx:3-5 | Nothing survives `filter(Boolean)` exactly when no argument is truthy |
| Skeleton.SplitJoin | src/components/ui/Skeleton.tsx:3-5 | Joining space-free words with single spaces can be split back into the same words |
| Skeleton.CnAppend | src/components/ui/Skeleton.tsx:3-5 | For two argument lists that each hold a truthy argument, the result is the first's classes, one space, then the second's. Class names may contain spaces |
| Skeleton.KeptAppend | src/components/ui/Skeleton.tsx:3-5 | Filtering distributes over concatenated argument lists |
| Skeleton.CnDropsFalsy | src/components/ui/Skeleton.tsx:3-5 | A falsy argument anywhere has no effect on the result |
| Skeleton.SkeletonClass | src/components/ui/Skeleton.tsx:7-14 | Always begins with the base classes. Exactly those for a missing or empty class name, otherwise followed by one space and the class name |
| AnimatedTime.Digits | src/components/ui/AnimatedTime.tsx:10-17 | For t >= 0, minutes are floor(t/60) and seconds lie in 0..59 with 60*minutes + seconds = floor(t). Minutes are tens*10+ones with ones in 0..9. Seconds are tens*10+ones with tens in 0..5 and ones in 0..9 |
| AnimatedTime.SplitSeconds | src/components/ui/AnimatedTime.tsx:10-11 | floor(t/60) and floor(t % 60) recombine to floor(t), and the second part lies in 0..59 |
| AnimatedTime.DigitSplit | src/components/ui/AnimatedTime.tsx:13-17 | For a whole n >= 0, floor(n/10) and floor(n % 10) are its integer quotient and remainder by 10 |
| AnimatedTime.MinuteTensSingleDigit | src/components/ui/AnimatedTime.tsx:10-13 | The minute-tens digit is at most 9 iff t < 6000 |
| LikedPage.NatToString | src/app/library/liked/page.tsx:25 | The decimal text of a number is non-empty and made of digits |
| LikedPage.ParsePrinted | src/app/library/liked/page.tsx:25 | Reading back the decimal text gives the number |
| LikedPage.PadStart2 | src/app/library/liked/page.tsx:25 | Two or more characters are kept. Shorter text is left-padded to exactly two, ending in the text |
| LikedPage.JsRem | src/app/library/liked/page.tsx:24 | JavaScript `%` agrees with the mathematical remainder on non-negative operands |
| LikedPage.FormatDuration | src/app/library/liked/page.tsx:22-26 | For s >= 0 the text is the decimal whole minutes, a colon, then the tens and units digits of s mod 60 |
| LikedPage.ReadPrinted | src/app/library/liked/page.tsx:22-26 | Printed minutes, a colon and two printed digits read back as 60 times the minutes plus the seconds |
| LikedPage.FormatParses | src/app/library/liked/page.tsx:22-26 | Reading the formatted text back as m:ss gives the duration |
| LikedPage.FormatExamples | src/app/library/liked/page.tsx:22-26 | 403 gives "6:43", 65 gives "1:05" and 0 gives "0:00" |
| LikedPage.PlaybackQueueAsWritten | src/app/library/liked/page.tsx:59-64 | As written, one entry per row in order, with no audio reference |
| LikedPage.PlaybackQueue | src/app/library/liked/page.tsx:59-64 | One entry per row, in order, with id, title and artist kept, the album cover as cover, and the audio reference carried over |
| LikedPage.TrackClick | src/app/library/liked/page.tsx:66-68 | The track is entry `index` and heads the queue. The queue is the entries from `index` on, `n - index` of them |
| LikedPage.HandleTrackClick | src/app/library/liked/page.tsx:58-69 | As the page is written: the player ends in `AfterSetTrack` with the clicked row and the tail of the queue mapped without audio references. The current track is in the queue and carries no audio reference |
| LikedPage.ClickAsWrittenNeverLoads | src/app/library/liked/page.tsx:59-68 | As written, the click never makes the sink call `load()`, and on a track change it clears the source |
| LikedPage.ClickLoadsStream | src/app/library/liked/page.tsx:59-68 | With the audio reference kept, clicking a new row with audio sets its stream URL and loads it |
| LikedPage.UnlikeOnPage | src/app/library/liked/page.tsx:37-39 | Exactly the rows with another identifier remain |
| LikedPage.UnlikeKeepsOrder | src/app/library/liked/page.tsx:37-39 | Removal from a concatenation is removal from each part, so the rest keep their order |
| Catalog.ToTrackDto | Controllers/LibraryController.cs:93-101 | Every field of the row is copied: identifier, title, duration, artist name, album cover and audio reference |
| LibraryController.LikeTrack | Controllers/LibraryController.cs:23-52 | An unknown track gives 404 and no change. An already liked pair gives 200 and no insert. Otherwise exactly that pair is appended, with 201. Afterwards a non-404 pair is liked, the keys still hold and other tables are unchanged |
| LibraryController.LikeTwice | Controllers/LibraryController.cs:33-39 | Liking twice is liking once: 201, then 200, with one row added |
| LibraryController.RemoveAtIsFilter | Controllers/LibraryController.cs:59-67 | With unique (user, track) pairs, deleting the found row is filtering out its pair |
| LibraryController.RemoveAtKeepsKeys | Controllers/LibraryController.cs:59-67 | Deleting one like row keeps the pairs unique and every row pointing at a track. That pair is then no longer liked |
| LibraryController.UnlikeTrack | Controllers/LibraryController.cs:54-71 | A pair that is not liked gives 404 and no change. Otherwise exactly that pair is removed, the other rows keep their order, and 204. Afterwards the pair is not liked |
| LibraryController.UserLikesNewestFirst | Controllers/LibraryController.cs:78-80 | A permutation of the caller's like rows, ordered by like time descending |
| LibraryController.LikedIdsNewestFirst | Controllers/LibraryController.cs:78-82 | The tracks of those rows, in the same order. An identifier is listed iff the caller liked it |
| LibraryController.TrackIdsOfLikes | Controllers/LibraryController.cs:78-82 | The tracks of exactly the caller's like rows are exactly the tracks the caller liked |
| LibraryController.FoundTracks | Controllers/LibraryController.cs:89-102 | Only tracks whose identifier is listed, each the full projection of a table row, and every such track of the table |
| LibraryController.FoundTracksDistinct | Controllers/LibraryController.cs:89-102 | With unique track identifiers, no track is found twice |
| LibraryController.GetLikedTracks | Controllers/LibraryController.cs:73-109 | Empty when the caller has no likes. Only liked tracks, each the full projection of a table row, and every liked track in the table. Ordered by position in the newest-first identifier list |
| LibraryController.LikedTracksNewestFirst | Controllers/LibraryController.cs:104-106 | A track listed earlier was liked no earlier than one listed later |
| LibraryController.LikedTracksDistinct | Controllers/LibraryController.cs:89-106 | Each liked track appears at most once |
| LibraryController.GetLikedTracksIds | Controllers/LibraryController.cs:111-120 | One identifier per like row of the caller. An identifier is listed iff the caller liked it |
| PlaylistsController.GetUserPlaylists | Controllers/PlaylistsController.cs:23-43 | 401 iff there is no caller. Otherwise 200 with exactly the caller's playlists, one per row |
| PlaylistsController.FindPlaylist | Controllers/PlaylistsController.cs:50-69 | None iff no playlist has the identifier. A found row has that identifier and, with unique keys, is the only one |
| PlaylistsController.FindUser | Controllers/PlaylistsController.cs:61 | The owner row with that identifier, or None when no row has it |
| PlaylistsController.FindTrack | Controllers/PlaylistsController.cs:62-67 | The track row with that identifier. None iff there is none |
| PlaylistsController.Entries | Controllers/PlaylistsController.cs:62-67 | Each entry is a track of the playlist, projected from a track row, and there is at most one per link row |
| PlaylistsController.EntriesComplete | Controllers/PlaylistsController.cs:62-67 | With the track foreign key, every track of the playlist is listed |
| PlaylistsController.GetPlaylist | Controllers/PlaylistsController.cs:45-77 | 404 iff no playlist has the identifier. Otherwise 200 with that playlist's identifier and name, for any caller |
| PlaylistsController.CreatePlaylist | Controllers/PlaylistsController.cs:79-102 | 401 and no change without a caller. Otherwise one row with the new identifier, name and caller as owner is appended, with 201 and that identifier and name. Other tables are unchanged |
| PlaylistsController.CreatedPlaylistListed | Controllers/PlaylistsController.cs:85-92 | The created playlist is listed last among its owner's playlists, and the rest are unchanged |
| PlaylistsController.StatusOf | Controllers/PlaylistsController.cs:106-141 | 201 iff the track was added. 404 iff the playlist or the track was not found |
| PlaylistsController.AddDecision | Controllers/PlaylistsController.cs:106-129 | The guards in order: no caller, then playlist missing or not owned, then track missing, then already present, else added. Each outcome holds iff its condition does |
| PlaylistsController.AddTrackToPlaylist | Controllers/PlaylistsController.cs:103-142 | The outcome is `AddDecision` of the old tables and the status its code. A link row is appended only on 201, so no playlist holds a track twice. Other tables are unchanged |
| PlaylistsController.AddTwice | Controllers/PlaylistsController.cs:123-129 | Adding the same track twice: 201, then 409, with one row added |
| PlaylistsController.AddedTrackListed | Controllers/PlaylistsController.cs:131-139 | After a successful add, reading the playlist lists the track |
| SearchController.LowerChar | Controllers/SearchController.cs:29 | ASCII capitals map to their small letters and every other character is unchanged |
| SearchController.Lower | Controllers/SearchController.cs:29 | Same length, lowered character by character |
| SearchController.LowerIdempotent | Controllers/SearchController.cs:29 | Lowering twice is lowering once |
| SearchController.FirstMatches | Controllers/SearchController.cs:31-41 | `Where`/`Take`/`Select`: min(matches, limit) results, each the projection of the matching row at that position. All matches are returned when they fit |
| SearchController.SearchArtists | Controllers/SearchController.cs:31-41 | At most 5 results, each an artist whose lowercased name contains the query. All matches are returned when there are at most 5, and exactly 5 when there are at least 5 |
| SearchController.SearchAlbums | Controllers/SearchController.cs:43-52 | The same for album titles, with limit 5 |
| SearchController.SearchTracks | Controllers/SearchController.cs:54-68 | The same for track titles, with limit 10 |
| SearchController.Search | Controllers/SearchController.cs:21-78 | A missing or blank query gives three empty lists. Otherwise the limits hold, every result matches the lowercased query, and all matching tracks come back when they fit |
| SearchController.SearchCaseInsensitive | Controllers/SearchController.cs:24-29 | Lowering the query first changes no result |
| SearchController.ManyMatchesFillTheLimits | Controllers/SearchController.cs:31-58 | Enough matches fill the artist and track lists to their limits |
| Base64.EncodeChar | Services/Argon2PasswordHasher.cs:36 | An alphabet character, never the padding character |
| Base64.DecodeChar | Services/Argon2PasswordHasher.cs:43 | The padding character is not a digit |
| Base64.DecodeEncodeChar | Services/Argon2PasswordHasher.cs:36-43 | Every 6-bit value is read back from its character |
| Base64.EncodeGroup | Services/Argon2PasswordHasher.cs:36 | Three bytes give four unpadded characters |
| Base64.Encode | Services/Argon2PasswordHasher.cs:36 | Four characters per started group of three bytes |
| Base64.DecodeGroup | Services/Argon2PasswordHasher.cs:43 | An accepted group gives three bytes |
| Base64.DecodeLast | Services/Argon2PasswordHasher.cs:43 | An accepted last group gives one to three bytes |
| Base64.Decode | Services/Argon2PasswordHasher.cs:43 | Only text whose length is a multiple of four is accepted |
| Base64.FromBase64String | Services/Argon2PasswordHasher.cs:43 | Accepted text has a multiple of four non-blank characters |
| Base64.DecodeEncodeGroup | Services/Argon2PasswordHasher.cs:36-43 | A full group decodes to its three bytes |
| Base64.DecodeEncodeOne | Services/Argon2PasswordHasher.cs:36-43 | A trailing single byte, padded with `==`, decodes back |
| Base64.DecodeEncodeTwo | Services/Argon2PasswordHasher.cs:36-43 | Two trailing bytes, padded with `=`, decode back |
| Base64.DecodeEncode | Services/Argon2PasswordHasher.cs:36-43 | Decoding undoes encoding for every byte string |
| Base64.EncodeHasNoBlanks | Services/Argon2PasswordHasher.cs:36-43 | Encoded text contains no character the decoder skips |
| Base64.FromBase64StringRoundTrip | Services/Argon2PasswordHasher.cs:36-43 | `FromBase64String(ToBase64String(b)) == b` |
| PasswordHasher.BlockCopy | Services/Argon2PasswordHasher.cs:33-34 | `count` bytes from the source offset replace the destination's bytes at its offset. The rest of the destination is unchanged |
| PasswordHasher.HashPassword | Services/Argon2PasswordHasher.cs:14-37 | The stored text is the base 64 of the salt followed by the KDF hash with parallelism 2, 4 iterations and 12288 KiB. It is 44 characters long |
| PasswordHasher.JoinSaltAndHash | Services/Argon2PasswordHasher.cs:32-34 | A fresh buffer holding the salt followed by the hash |
| PasswordHasher.FixedTimeEquals | Services/Argon2PasswordHasher.cs:65 | True iff the two buffers have the same length and bytes |
| PasswordHasher.VerifyHashedPassword | Services/Argon2PasswordHasher.cs:39-76 | Success iff the text decodes to 32 bytes whose last 16 are the hash of the password under the first 16, with the same settings. Undecodable text or a wrong length gives Failed and never an exception |
| PasswordHasher.CheckSaltAndHash | Services/Argon2PasswordHasher.cs:44-70 | Once decoded: Success iff the bytes are 32 long and the last 16 are the hash of the password under the first 16. Any other length gives Failed |
| PasswordHasher.HashThenVerify | Services/Argon2PasswordHasher.cs:14-76 | Verifying a password against the text just stored for it succeeds, for any salt and any deterministic KDF |
| PasswordHasher.StoredTextMatches | Services/Argon2PasswordHasher.cs:33-53 | The split at 16 in verification inverts the packing in hashing, so the stored text matches its password |
| PasswordHasher.OtherPasswordRefused | Services/Argon2PasswordHasher.cs:63-70 | A password whose hash under the stored salt differs is refused |

## Left out

- Rendering, JSX and the `SlotCounter` digits are not modelled. Only the values the components compute are.
- Console logging is not modelled. Nothing in the core depends on it.
- Asynchronous interleavings are not modelled. One case is two overlapping `toggleLikeTrack` calls, where one rollback can erase the other toggle. Another is the race of a `play()` promise. Each operation runs to completion, and request outcomes are boolean or `Option` inputs.
- Audio time, duration and volume are JavaScript numbers and are modelled as reals. They are stored unchanged, and no floating-point rounding is modelled.
- Some inputs are parameters of the model: the environment variable behind `API_URL`, `DateTime.UtcNow` (as a number), `Guid.NewGuid()`, the random salt and the Argon2id key derivation. The KDF includes the UTF-8 encoding of the password.
- The liked page's fetch effect, its loading and error states, and the authentication store are not modelled. They are network I/O and UI state.
- The database is sequences in table order. Query results come back in table order, and `Include` joins are folded into the track rows (artist name, album cover). The user-role tables and the framework's DTO validation are not part of this model.
- Player.PlayerStore.Seek: models only the store's default `seek`. The effect's replacement via `setState` is `AudioProvider.AudioSink.Seek`; the store object and the sink are not merged into one.
- AudioProvider.AudioSink.constructor: models the element as created once. The `preload = 'metadata'` setting and the `audioRef` reuse check are not modelled.
- SearchController.Lower: lowers ASCII letters only. .NET's culture-sensitive `ToLower`, and the SQL `LOWER` that the query is translated to, also fold non-ASCII letters.
- SearchController.Search: the query is matched against `Lower(text)` in memory. Database collation effects are not modelled.
- LibraryController.LikeTrack: takes the caller's identifier as present, as the `[Authorize]` attribute makes it. The null-claim case of this controller is not modelled.
- LibraryController.GetLikedTracks: the order among rows liked at the same instant is whatever the sort leaves. The contract states only the non-increasing order of like times.
- PlaylistsController.CreatePlaylist: keeps the database's keys valid only when the new identifier is unused. The uniqueness of `Guid.NewGuid()` is assumed, not modelled.
- PlaylistsController.GetPlaylist: the owner name is `None` when the owner row is missing. Track entries carry only identifier, title and duration, the members the query fills in.
- PasswordHasher.BlockCopy: copies between distinct buffers only, since every call site does. Overlapping copies are not modelled.
- PasswordHasher.FixedTimeEquals: states the result only. That the comparison takes time independent of the contents is not modelled.
- PasswordHasher.VerifyHashedPassword: the KDF is a total function. An exception inside Argon2id, which the source's `catch` would turn into Failed, is not modelled.
- Base64.Decode: does not reject non-zero unused bits in a padded last group.
- Base64.FromBase64String: skips only space, tab, carriage return and line feed.

## Findings

| source | as written | input that shows it | evidently intended | confidence | as-written member | corrected member |
|---|---|---|---|---|---|---|
| src/app/library/liked/page.tsx:59-64 | The playback queue built on a row click copies id, title, artist and cover, but not the track's audio reference. The sink then sees a track without audio and clears the source instead of loading the stream | Any liked row with a non-empty audio reference, clicked while another track (or none) is current | Carry the audio reference into the queue entry, so the sink sets the stream URL and calls `load()` | medium, not executed | LikedPage.ClickAsWrittenNeverLoads | LikedPage.ClickLoadsStream |
