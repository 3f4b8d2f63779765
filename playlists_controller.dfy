/** `Controllers/PlaylistsController.cs`: listing, reading and creating
    playlists and adding a track to one. `userId` is the value of the
    caller's name-identifier claim, `None` when the claim is missing. */
module PlaylistsController {
  import opened Common
  import opened Catalog

  datatype PlaylistDto = PlaylistDto(id: Guid, name: string)

  /** A track of `PlaylistDetailDto.Tracks`: only the identifier, title and
      duration are filled in; the other `TrackDto` members stay null. */
  datatype PlaylistEntry = PlaylistEntry(id: Guid, title: string, durationInSeconds: int)

  datatype PlaylistDetail = PlaylistDetail(
    id: Guid,
    name: string,
    ownerName: Option<string>,
    tracks: seq<PlaylistEntry>)

  function ToPlaylistDto(p: PlaylistRow): PlaylistDto
  {
    PlaylistDto(p.id, p.name)
  }

  /** The row filter `p => p.UserId == userId`. */
  function OwnedBy(userId: string): PlaylistRow -> bool
  {
    (p: PlaylistRow) => p.userId == userId
  }

  /** `GetUserPlaylists()`: 401 without a caller; otherwise the caller's
      playlists, in table order. */
  function GetUserPlaylists(userId: Option<string>, playlists: seq<PlaylistRow>): (r: Reply<seq<PlaylistDto>>)
    ensures userId.None? <==> r == Code(Unauthorized401)
    ensures userId.Some? ==> r.Body? && r.status == Ok200
    ensures userId.Some? ==> |r.value| == |Filter(playlists, OwnedBy(userId.value))|
    ensures userId.Some? ==> forall d :: d in r.value <==>
      exists i :: 0 <= i < |playlists| && playlists[i].userId == userId.value && d == ToPlaylistDto(playlists[i])
  {
    match userId
    case None => Code(Unauthorized401)
    case Some(u) =>
      var mine := Filter(playlists, OwnedBy(u));
      FilterMembers(playlists, OwnedBy(u));
      var dtos := MapSeq(mine, ToPlaylistDto);
      assert forall d :: d in dtos <==>
        exists i :: 0 <= i < |playlists| && playlists[i].userId == u && d == ToPlaylistDto(playlists[i]) by {
        forall d ensures d in dtos <==>
          exists i :: 0 <= i < |playlists| && playlists[i].userId == u && d == ToPlaylistDto(playlists[i]) {
          if d in dtos {
            var k :| 0 <= k < |dtos| && dtos[k] == d;
            assert mine[k] in mine;
            var i :| 0 <= i < |playlists| && playlists[i] == mine[k];
          }
          if exists i :: 0 <= i < |playlists| && playlists[i].userId == u && d == ToPlaylistDto(playlists[i]) {
            var i :| 0 <= i < |playlists| && playlists[i].userId == u && d == ToPlaylistDto(playlists[i]);
            assert playlists[i] in mine;
            var k :| 0 <= k < |mine| && mine[k] == playlists[i];
            assert dtos[k] == d;
          }
        }
      }
      Body(Ok200, dtos)
  }

  /** `FirstOrDefault` over the playlists with the given identifier. */
  function FindPlaylist(playlists: seq<PlaylistRow>, id: Guid): (r: Option<PlaylistRow>)
    ensures r.None? <==> !PlaylistExists(playlists, id)
    ensures r.Some? ==> r.value in playlists && r.value.id == id
    ensures r.Some? && UniquePlaylistIds(playlists) ==>
      forall i :: 0 <= i < |playlists| && playlists[i].id == id ==> playlists[i] == r.value
  {
    if playlists == [] then None
    else if playlists[0].id == id then Some(playlists[0])
    else
      var rest := FindPlaylist(playlists[1..], id);
      assert PlaylistExists(playlists, id) ==> PlaylistExists(playlists[1..], id) by {
        if PlaylistExists(playlists, id) {
          var i :| 0 <= i < |playlists| && playlists[i].id == id;
          assert playlists[1..][i - 1] == playlists[i];
        }
      }
      assert PlaylistExists(playlists[1..], id) ==> PlaylistExists(playlists, id) by {
        if PlaylistExists(playlists[1..], id) {
          var i :| 0 <= i < |playlists[1..]| && playlists[1..][i].id == id;
          assert playlists[i + 1] == playlists[1..][i];
        }
      }
      rest
  }

  /** The user row behind `p.User`, if there is one. */
  function FindUser(users: seq<UserRow>, id: string): (r: Option<UserRow>)
    ensures r.Some? ==> r.value in users && r.value.id == id
    ensures r.None? ==> forall u :: u in users ==> u.id != id
  {
    if users == [] then None
    else if users[0].id == id then Some(users[0])
    else FindUser(users[1..], id)
  }

  /** The track row behind `pt.Track`, if there is one. */
  function FindTrack(tracks: seq<TrackRow>, id: Guid): (r: Option<TrackRow>)
    ensures r.Some? ==> r.value in tracks && r.value.id == id
    ensures r.None? <==> !TrackExists(tracks, id)
  {
    if tracks == [] then None
    else if tracks[0].id == id then Some(tracks[0])
    else
      var rest := FindTrack(tracks[1..], id);
      assert TrackExists(tracks, id) ==> TrackExists(tracks[1..], id) by {
        if TrackExists(tracks, id) {
          var i :| 0 <= i < |tracks| && tracks[i].id == id;
          assert tracks[1..][i - 1] == tracks[i];
        }
      }
      assert TrackExists(tracks[1..], id) ==> TrackExists(tracks, id) by {
        if TrackExists(tracks[1..], id) {
          var i :| 0 <= i < |tracks[1..]| && tracks[1..][i].id == id;
          assert tracks[i + 1] == tracks[1..][i];
        }
      }
      rest
  }

  /** `p.PlaylistTracks.Select(...)`: the entries of one playlist, in table
      order, each joined with its track. */
  function Entries(playlistId: Guid, rows: seq<PlaylistTrackRow>, tracks: seq<TrackRow>): (r: seq<PlaylistEntry>)
    ensures forall e :: e in r ==> InPlaylist(rows, playlistId, e.id)
    ensures forall e :: e in r ==> exists t :: t in tracks && e == PlaylistEntry(t.id, t.title, t.durationInSeconds)
    ensures |r| <= |rows|
  {
    if rows == [] then []
    else
      var rest := Entries(playlistId, rows[1..], tracks);
      assert forall e :: e in rest ==> InPlaylist(rows, playlistId, e.id) by {
        forall e | e in rest ensures InPlaylist(rows, playlistId, e.id) {
          var i :| 0 <= i < |rows[1..]| && rows[1..][i].playlistId == playlistId && rows[1..][i].trackId == e.id;
          assert rows[i + 1] == rows[1..][i];
        }
      }
      var head := rows[0];
      if head.playlistId != playlistId then rest
      else
        match FindTrack(tracks, head.trackId)
        case None => rest
        case Some(t) => [PlaylistEntry(t.id, t.title, t.durationInSeconds)] + rest
  }

  /** `GetPlaylist(id)`: 404 for an unknown playlist, otherwise its details.
      Any authenticated caller can read any playlist: there is no ownership
      check here. */
  function GetPlaylist(id: Guid, playlists: seq<PlaylistRow>, users: seq<UserRow>, rows: seq<PlaylistTrackRow>, tracks: seq<TrackRow>)
    : (r: Reply<PlaylistDetail>)
    ensures r.Code? <==> !PlaylistExists(playlists, id)
    ensures r.Code? ==> r.status == NotFound404
    ensures r.Body? ==> (r.status == Ok200 && r.value.id == id
      && exists i :: 0 <= i < |playlists| && playlists[i].id == id && playlists[i].name == r.value.name)
  {
    match FindPlaylist(playlists, id)
    case None => Code(NotFound404)
    case Some(p) =>
      var owner := match FindUser(users, p.userId)
        case None => None
        case Some(u) => Some(u.userName);
      Body(Ok200, PlaylistDetail(p.id, p.name, owner, Entries(id, rows, tracks)))
  }

  /** With the foreign key to tracks, every entry of the playlist is listed
      (the join drops nothing). */
  lemma {:induction false} EntriesComplete(playlistId: Guid, rows: seq<PlaylistTrackRow>, tracks: seq<TrackRow>, trackId: Guid)
    requires forall i :: 0 <= i < |rows| ==> TrackExists(tracks, rows[i].trackId)
    requires InPlaylist(rows, playlistId, trackId)
    ensures exists e :: e in Entries(playlistId, rows, tracks) && e.id == trackId
  {
    var rest := Entries(playlistId, rows[1..], tracks);
    if rows[0].playlistId == playlistId && rows[0].trackId == trackId {
      var t := FindTrack(tracks, trackId).value;
      assert PlaylistEntry(t.id, t.title, t.durationInSeconds) in Entries(playlistId, rows, tracks);
    } else {
      var i :| 0 <= i < |rows| && rows[i].playlistId == playlistId && rows[i].trackId == trackId;
      assert rows[1..][i - 1] == rows[i];
      EntriesComplete(playlistId, rows[1..], tracks, trackId);
      var e :| e in rest && e.id == trackId;
      assert e in Entries(playlistId, rows, tracks);
    }
  }

  /** `CreatePlaylist(dto)`: 401 without a caller; otherwise a new playlist
      owned by the caller, answered with 201. `newId` stands for
      `Guid.NewGuid()`. */
  method CreatePlaylist(db: Database, userId: Option<string>, name: string, newId: Guid)
    returns (r: Reply<PlaylistDto>)
    requires db.Valid()
    modifies db
    ensures userId.None? ==> r == Code(Unauthorized401) && db.playlists == old(db.playlists)
    ensures userId.Some? ==> (r == Body(Created201, PlaylistDto(newId, name))
      && db.playlists == old(db.playlists) + [PlaylistRow(newId, name, userId.value)])
    ensures db.tracks == old(db.tracks) && db.playlistTracks == old(db.playlistTracks)
    ensures db.likedTracks == old(db.likedTracks) && db.users == old(db.users)
    ensures !PlaylistExists(old(db.playlists), newId) ==> db.Valid()
  {
    if userId.None? {
      return Code(Unauthorized401);
    }
    var playlist := PlaylistRow(newId, name, userId.value);
    db.playlists := db.playlists + [playlist];
    assert forall k :: 0 <= k < |old(db.playlists)| ==> db.playlists[k] == old(db.playlists)[k];
    r := Body(Created201, ToPlaylistDto(playlist));
  }

  /** A created playlist is listed last among its owner's playlists. */
  lemma CreatedPlaylistListed(playlists: seq<PlaylistRow>, userId: string, name: string, newId: Guid)
    ensures GetUserPlaylists(Some(userId), playlists + [PlaylistRow(newId, name, userId)]).value
      == GetUserPlaylists(Some(userId), playlists).value + [PlaylistDto(newId, name)]
  {
    var row := PlaylistRow(newId, name, userId);
    FilterAppend(playlists, [row], OwnedBy(userId));
    assert [row][1..] == [];
    var before := Filter(playlists, OwnedBy(userId));
    assert Filter(playlists + [row], OwnedBy(userId)) == before + [row];
    assert MapSeq(before + [row], ToPlaylistDto) == MapSeq(before, ToPlaylistDto) + [ToPlaylistDto(row)];
  }

  /** The outcome of the sequential guards of `AddTrackToPlaylist`. */
  datatype AddOutcome = Unauthorized | PlaylistNotFound | TrackNotFound | AlreadyInPlaylist | Added

  function StatusOf(o: AddOutcome): (s: Status)
    ensures s == Created201 <==> o == Added
    ensures s == NotFound404 <==> o == PlaylistNotFound || o == TrackNotFound
  {
    match o
    case Unauthorized => Unauthorized401
    case PlaylistNotFound => NotFound404
    case TrackNotFound => NotFound404
    case AlreadyInPlaylist => Conflict409
    case Added => Created201
  }

  /** The caller owns the playlist: `p.Id == playlistId && p.UserId == userId`. */
  predicate Owns(playlists: seq<PlaylistRow>, playlistId: Guid, userId: string)
  {
    exists i :: 0 <= i < |playlists| && playlists[i].id == playlistId && playlists[i].userId == userId
  }

  /** The guards, checked in the order the controller checks them. */
  function AddDecision(userId: Option<string>, playlistId: Guid, trackId: Guid,
                       playlists: seq<PlaylistRow>, tracks: seq<TrackRow>, rows: seq<PlaylistTrackRow>): (o: AddOutcome)
    ensures o == Unauthorized <==> userId.None?
    ensures o == PlaylistNotFound <==> userId.Some? && !Owns(playlists, playlistId, userId.value)
    ensures o == TrackNotFound <==> (userId.Some? && Owns(playlists, playlistId, userId.value)
      && !TrackExists(tracks, trackId))
    ensures o == AlreadyInPlaylist <==> (userId.Some? && Owns(playlists, playlistId, userId.value)
      && TrackExists(tracks, trackId) && InPlaylist(rows, playlistId, trackId))
    ensures o == Added <==> (userId.Some? && Owns(playlists, playlistId, userId.value)
      && TrackExists(tracks, trackId) && !InPlaylist(rows, playlistId, trackId))
  {
    if userId.None? then Unauthorized
    else if !Owns(playlists, playlistId, userId.value) then PlaylistNotFound
    else if !TrackExists(tracks, trackId) then TrackNotFound
    else if InPlaylist(rows, playlistId, trackId) then AlreadyInPlaylist
    else Added
  }

  /** `AddTrackToPlaylist(playlistId, dto)`: the guards in order, then one
      new entry and 201. */
  method AddTrackToPlaylist(db: Database, userId: Option<string>, playlistId: Guid, trackId: Guid, now: int)
    returns (outcome: AddOutcome, status: Status)
    requires db.Valid()
    modifies db
    ensures outcome == AddDecision(userId, playlistId, trackId, old(db.playlists), old(db.tracks), old(db.playlistTracks))
    ensures status == StatusOf(outcome)
    ensures db.playlistTracks == if outcome == Added
      then old(db.playlistTracks) + [PlaylistTrackRow(playlistId, trackId, now)]
      else old(db.playlistTracks)
    ensures db.tracks == old(db.tracks) && db.playlists == old(db.playlists)
    ensures db.likedTracks == old(db.likedTracks) && db.users == old(db.users)
    ensures db.Valid()
  {
    if userId.None? {
      outcome := Unauthorized;
    } else if !Owns(db.playlists, playlistId, userId.value) {
      outcome := PlaylistNotFound;
    } else if !TrackExists(db.tracks, trackId) {
      outcome := TrackNotFound;
    } else if InPlaylist(db.playlistTracks, playlistId, trackId) {
      outcome := AlreadyInPlaylist;
    } else {
      var row := PlaylistTrackRow(playlistId, trackId, now);
      var before := db.playlistTracks;
      db.playlistTracks := before + [row];
      assert db.playlistTracks[|before|] == row;
      assert forall k :: 0 <= k < |before| ==> db.playlistTracks[k] == before[k];
      var i :| 0 <= i < |db.playlists| && db.playlists[i].id == playlistId && db.playlists[i].userId == userId.value;
      assert PlaylistExists(db.playlists, playlistId);
      outcome := Added;
    }
    status := StatusOf(outcome);
  }

  /** Adding the same track twice: the second request is refused with 409
      and inserts nothing. */
  method AddTwice(db: Database, userId: string, playlistId: Guid, trackId: Guid, now: int, later: int)
    returns (first: Status, second: Status)
    requires db.Valid() && Owns(db.playlists, playlistId, userId) && TrackExists(db.tracks, trackId)
    requires !InPlaylist(db.playlistTracks, playlistId, trackId)
    modifies db
    ensures first == Created201 && second == Conflict409
    ensures db.playlistTracks == old(db.playlistTracks) + [PlaylistTrackRow(playlistId, trackId, now)]
  {
    var o1, o2;
    o1, first := AddTrackToPlaylist(db, Some(userId), playlistId, trackId, now);
    assert db.playlistTracks[|db.playlistTracks| - 1] == PlaylistTrackRow(playlistId, trackId, now);
    o2, second := AddTrackToPlaylist(db, Some(userId), playlistId, trackId, later);
  }

  /** A track added to a playlist shows up when the playlist is read. */
  lemma AddedTrackListed(playlists: seq<PlaylistRow>, users: seq<UserRow>, rows: seq<PlaylistTrackRow>,
                         tracks: seq<TrackRow>, userId: string, playlistId: Guid, trackId: Guid, now: int)
    requires PlaylistTracksReferenced(rows, playlists, tracks)
    requires AddDecision(Some(userId), playlistId, trackId, playlists, tracks, rows) == Added
    ensures var r := GetPlaylist(playlistId, playlists, users, rows + [PlaylistTrackRow(playlistId, trackId, now)], tracks);
      r.Body? && exists e :: e in r.value.tracks && e.id == trackId
  {
    var rows' := rows + [PlaylistTrackRow(playlistId, trackId, now)];
    assert rows'[|rows|].playlistId == playlistId && rows'[|rows|].trackId == trackId;
    forall i | 0 <= i < |rows'| ensures TrackExists(tracks, rows'[i].trackId) {
      if i < |rows| {
        assert rows'[i] == rows[i];
      }
    }
    EntriesComplete(playlistId, rows', tracks, trackId);
    var i :| 0 <= i < |playlists| && playlists[i].id == playlistId && playlists[i].userId == userId;
    assert PlaylistExists(playlists, playlistId);
  }
}
