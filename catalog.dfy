/** The server's tables, as the controllers see them through
    `ApplicationDbContext`. A table is the sequence of its rows in the order
    the database returns them; the composite keys declared in
    `OnModelCreating` are the uniqueness conditions of `Database.Valid`.
    Navigation joins used in projections (track -> album -> artist) are
    folded into the track row. */
module Catalog {
  import opened Common

  type Guid = int

  datatype ArtistRow = ArtistRow(id: int, name: string, profileImageUrl: Option<string>, isVerified: bool)

  datatype AlbumRow = AlbumRow(id: Guid, title: string, coverImageUrl: Option<string>)

  /** A track with the album cover and artist name its projections read. */
  datatype TrackRow = TrackRow(
    id: Guid,
    title: string,
    durationInSeconds: int,
    audioUrl: Option<string>,
    artistName: string,
    albumCoverImageUrl: Option<string>)

  datatype UserRow = UserRow(id: string, userName: string)

  datatype PlaylistRow = PlaylistRow(id: Guid, name: string, userId: string)

  datatype PlaylistTrackRow = PlaylistTrackRow(playlistId: Guid, trackId: Guid, addedAt: int)

  datatype LikedTrackRow = LikedTrackRow(userId: string, trackId: Guid, likedAt: int)

  /** `TrackDto` as the library and search controllers fill it. */
  datatype TrackDto = TrackDto(
    id: Guid,
    title: string,
    durationInSeconds: int,
    artistName: string,
    albumCoverImageUrl: Option<string>,
    audioUrl: Option<string>)

  /** The projection copies every field of the row, the audio reference
      included. */
  function ToTrackDto(t: TrackRow): (d: TrackDto)
    ensures d.id == t.id && d.title == t.title && d.durationInSeconds == t.durationInSeconds
    ensures d.artistName == t.artistName && d.albumCoverImageUrl == t.albumCoverImageUrl
    ensures d.audioUrl == t.audioUrl
  {
    TrackDto(t.id, t.title, t.durationInSeconds, t.artistName, t.albumCoverImageUrl, t.audioUrl)
  }

  /** HTTP outcomes the controllers produce. */
  datatype Status = Ok200 | Created201 | NoContent204 | Unauthorized401 | NotFound404 | Conflict409

  /** A response: a status with a body, or a bare status. */
  datatype Reply<T> = Body(status: Status, value: T) | Code(status: Status)

  predicate TrackExists(tracks: seq<TrackRow>, id: Guid)
  {
    exists i :: 0 <= i < |tracks| && tracks[i].id == id
  }

  predicate HasLiked(liked: seq<LikedTrackRow>, userId: string, trackId: Guid)
  {
    exists i :: 0 <= i < |liked| && liked[i].userId == userId && liked[i].trackId == trackId
  }

  predicate InPlaylist(rows: seq<PlaylistTrackRow>, playlistId: Guid, trackId: Guid)
  {
    exists i :: 0 <= i < |rows| && rows[i].playlistId == playlistId && rows[i].trackId == trackId
  }

  /** The (UserId, TrackId) key of `LikedTrack`. */
  predicate UniqueLikes(liked: seq<LikedTrackRow>)
  {
    forall i, j :: 0 <= i < j < |liked| ==>
      liked[i].userId != liked[j].userId || liked[i].trackId != liked[j].trackId
  }

  /** The (PlaylistId, TrackId) key of `PlaylistTrack`. */
  predicate UniquePlaylistTracks(rows: seq<PlaylistTrackRow>)
  {
    forall i, j :: 0 <= i < j < |rows| ==>
      rows[i].playlistId != rows[j].playlistId || rows[i].trackId != rows[j].trackId
  }

  predicate UniqueTrackIds(tracks: seq<TrackRow>)
  {
    forall i, j :: 0 <= i < j < |tracks| ==> tracks[i].id != tracks[j].id
  }

  predicate UniquePlaylistIds(playlists: seq<PlaylistRow>)
  {
    forall i, j :: 0 <= i < j < |playlists| ==> playlists[i].id != playlists[j].id
  }

  /** The foreign keys from playlist entries to playlists and tracks. */
  predicate PlaylistTracksReferenced(rows: seq<PlaylistTrackRow>, playlists: seq<PlaylistRow>, tracks: seq<TrackRow>)
  {
    forall i :: 0 <= i < |rows| ==>
      PlaylistExists(playlists, rows[i].playlistId) && TrackExists(tracks, rows[i].trackId)
  }

  /** The foreign key from likes to tracks. */
  predicate LikesReferenced(liked: seq<LikedTrackRow>, tracks: seq<TrackRow>)
  {
    forall i :: 0 <= i < |liked| ==> TrackExists(tracks, liked[i].trackId)
  }

  predicate PlaylistExists(playlists: seq<PlaylistRow>, id: Guid)
  {
    exists i :: 0 <= i < |playlists| && playlists[i].id == id
  }

  /** The database behind `ApplicationDbContext`. */
  class Database {
    var artists: seq<ArtistRow>
    var albums: seq<AlbumRow>
    var tracks: seq<TrackRow>
    var users: seq<UserRow>
    var playlists: seq<PlaylistRow>
    var playlistTracks: seq<PlaylistTrackRow>
    var likedTracks: seq<LikedTrackRow>

    /** The primary keys and the foreign keys into playlists and tracks
        hold. */
    ghost predicate Valid()
      reads this
    {
      && UniqueTrackIds(tracks)
      && UniquePlaylistIds(playlists)
      && UniquePlaylistTracks(playlistTracks)
      && UniqueLikes(likedTracks)
      && PlaylistTracksReferenced(playlistTracks, playlists, tracks)
      && LikesReferenced(likedTracks, tracks)
    }

    constructor (artists: seq<ArtistRow>, albums: seq<AlbumRow>, tracks: seq<TrackRow>, users: seq<UserRow>)
      requires UniqueTrackIds(tracks)
      ensures Valid()
      ensures this.artists == artists && this.albums == albums && this.tracks == tracks && this.users == users
      ensures playlists == [] && playlistTracks == [] && likedTracks == []
    {
      this.artists := artists;
      this.albums := albums;
      this.tracks := tracks;
      this.users := users;
      playlists := [];
      playlistTracks := [];
      likedTracks := [];
    }
  }
}
