/** `Controllers/LibraryController.cs`: liking and unliking tracks and the
    two liked-track queries. The caller's identifier comes from the
    authentication claims of an `[Authorize]` controller; `now` stands for
    `DateTime.UtcNow`. */
module LibraryController {
  import opened Common
  import opened Catalog

  /** The row filter `lt => lt.UserId == userId`. */
  function ByUser(userId: string): LikedTrackRow -> bool
  {
    (lt: LikedTrackRow) => lt.userId == userId
  }

  /** The ordering key of `OrderByDescending(lt => lt.LikedAt)`. */
  function NewestFirst(lt: LikedTrackRow): int
  {
    -lt.likedAt
  }

  function TrackIdOf(lt: LikedTrackRow): Guid
  {
    lt.trackId
  }

  /** `LikeTrack(trackId)`: 404 for an unknown track; 200 and no insert
      when the pair is already liked; otherwise one new row and 201. */
  method LikeTrack(db: Database, userId: string, trackId: Guid, now: int) returns (status: Status)
    requires db.Valid()
    modifies db
    ensures db.Valid()
    ensures db.tracks == old(db.tracks) && db.playlists == old(db.playlists)
    ensures db.playlistTracks == old(db.playlistTracks)
    ensures !TrackExists(old(db.tracks), trackId) ==>
      status == NotFound404 && db.likedTracks == old(db.likedTracks)
    ensures TrackExists(old(db.tracks), trackId) && HasLiked(old(db.likedTracks), userId, trackId) ==>
      status == Ok200 && db.likedTracks == old(db.likedTracks)
    ensures TrackExists(old(db.tracks), trackId) && !HasLiked(old(db.likedTracks), userId, trackId) ==>
      status == Created201 && db.likedTracks == old(db.likedTracks) + [LikedTrackRow(userId, trackId, now)]
    ensures status != NotFound404 ==> HasLiked(db.likedTracks, userId, trackId)
  {
    if !TrackExists(db.tracks, trackId) {
      return NotFound404;
    }
    var alreadyLiked := HasLiked(db.likedTracks, userId, trackId);
    if alreadyLiked {
      return Ok200;
    }
    var likedTrack := LikedTrackRow(userId, trackId, now);
    db.likedTracks := db.likedTracks + [likedTrack];
    assert db.likedTracks[|db.likedTracks| - 1] == likedTrack;
    status := Created201;
  }

  /** Liking twice is liking once: the second request answers 200 and
      inserts nothing. */
  method LikeTwice(db: Database, userId: string, trackId: Guid, now: int, later: int)
    returns (first: Status, second: Status)
    requires db.Valid() && TrackExists(db.tracks, trackId) && !HasLiked(db.likedTracks, userId, trackId)
    modifies db
    ensures first == Created201 && second == Ok200
    ensures db.likedTracks == old(db.likedTracks) + [LikedTrackRow(userId, trackId, now)]
  {
    first := LikeTrack(db, userId, trackId, now);
    second := LikeTrack(db, userId, trackId, later);
  }

  /** The row filter keeping every pair but (userId, trackId). */
  function NotPair(userId: string, trackId: Guid): LikedTrackRow -> bool
  {
    (lt: LikedTrackRow) => lt.userId != userId || lt.trackId != trackId
  }

  /** With unique pairs, dropping the one row at index k is filtering out
      its pair. */
  lemma RemoveAtIsFilter(liked: seq<LikedTrackRow>, k: nat)
    requires UniqueLikes(liked) && k < |liked|
    ensures liked[..k] + liked[k + 1..] == Filter(liked, NotPair(liked[k].userId, liked[k].trackId))
  {
    var keep := NotPair(liked[k].userId, liked[k].trackId);
    forall i | 0 <= i < |liked| && i != k ensures keep(liked[i]) {
      if i < k {
        assert liked[i].userId != liked[k].userId || liked[i].trackId != liked[k].trackId;
      } else {
        assert liked[k].userId != liked[i].userId || liked[k].trackId != liked[i].trackId;
      }
    }
    FilterRemoveAt(liked, k, keep);
  }

  /** Deleting one row keeps both keys of the like table, and with unique
      pairs that row's pair is no longer liked. */
  lemma RemoveAtKeepsKeys(liked: seq<LikedTrackRow>, tracks: seq<TrackRow>, k: nat)
    requires UniqueLikes(liked) && LikesReferenced(liked, tracks) && k < |liked|
    ensures UniqueLikes(liked[..k] + liked[k + 1..])
    ensures LikesReferenced(liked[..k] + liked[k + 1..], tracks)
    ensures !HasLiked(liked[..k] + liked[k + 1..], liked[k].userId, liked[k].trackId)
  {
    var rest := liked[..k] + liked[k + 1..];
    assert forall i :: 0 <= i < |rest| ==> rest[i] == liked[if i < k then i else i + 1];
    forall i, j | 0 <= i < j < |rest|
      ensures rest[i].userId != rest[j].userId || rest[i].trackId != rest[j].trackId
    {
      var a, b := if i < k then i else i + 1, if j < k then j else j + 1;
      assert a < b && rest[i] == liked[a] && rest[j] == liked[b];
    }
    forall i | 0 <= i < |rest|
      ensures rest[i].userId != liked[k].userId || rest[i].trackId != liked[k].trackId
    {
      var a := if i < k then i else i + 1;
      assert rest[i] == liked[a] && a != k;
    }
  }

  /** `UnlikeTrack(trackId)`: 404 with no change when the pair is not
      liked; otherwise exactly that pair's row is removed and 204. */
  method UnlikeTrack(db: Database, userId: string, trackId: Guid) returns (status: Status)
    requires db.Valid()
    modifies db
    ensures db.Valid()
    ensures db.tracks == old(db.tracks) && db.playlists == old(db.playlists)
    ensures db.playlistTracks == old(db.playlistTracks)
    ensures !HasLiked(old(db.likedTracks), userId, trackId) ==>
      status == NotFound404 && db.likedTracks == old(db.likedTracks)
    ensures HasLiked(old(db.likedTracks), userId, trackId) ==>
      status == NoContent204 && db.likedTracks == Filter(old(db.likedTracks), NotPair(userId, trackId))
    ensures !HasLiked(db.likedTracks, userId, trackId)
  {
    var liked := db.likedTracks;
    var i := 0;
    while i < |liked| && !(liked[i].userId == userId && liked[i].trackId == trackId)
      invariant 0 <= i <= |liked|
      invariant forall j :: 0 <= j < i ==> !(liked[j].userId == userId && liked[j].trackId == trackId)
    {
      i := i + 1;
    }
    if i == |liked| {
      return NotFound404;
    }
    RemoveAtIsFilter(liked, i);
    RemoveAtKeepsKeys(liked, db.tracks, i);
    db.likedTracks := liked[..i] + liked[i + 1..];
    status := NoContent204;
  }

  /** The caller's like rows, newest first (`Where` + `OrderByDescending`). */
  function UserLikesNewestFirst(liked: seq<LikedTrackRow>, userId: string): (rows: seq<LikedTrackRow>)
    ensures multiset(rows) == multiset(Filter(liked, ByUser(userId)))
    ensures forall i, j :: 0 <= i < j < |rows| ==> rows[i].likedAt >= rows[j].likedAt
    ensures forall lt :: lt in rows <==> lt in liked && lt.userId == userId
  {
    var mine := Filter(liked, ByUser(userId));
    FilterMembers(liked, ByUser(userId));
    var rows := SortBy(mine, NewestFirst);
    SameElements(rows, mine);
    rows
  }

  /** `likedTrackIds` in `GetLikedTracks`: the caller's liked tracks,
      newest like first. */
  function LikedIdsNewestFirst(liked: seq<LikedTrackRow>, userId: string): (ids: seq<Guid>)
    ensures |ids| == |UserLikesNewestFirst(liked, userId)|
    ensures forall i :: 0 <= i < |ids| ==> ids[i] == UserLikesNewestFirst(liked, userId)[i].trackId
    ensures forall id :: id in ids <==> HasLiked(liked, userId, id)
  {
    var rows := UserLikesNewestFirst(liked, userId);
    var ids := MapSeq(rows, TrackIdOf);
    TrackIdsOfLikes(liked, userId, rows, ids);
    ids
  }

  /** The row filter `t => likedTrackIds.Contains(t.Id)`. */
  function InIds(ids: seq<Guid>): TrackRow -> bool
  {
    (t: TrackRow) => t.id in ids
  }

  /** The ordering key `t => likedTrackIds.IndexOf(t.Id)`. */
  function PositionIn(ids: seq<Guid>): TrackDto -> int
  {
    (d: TrackDto) => IndexOf(ids, d.id)
  }

  /** `d` is the projection of a row of the track table, every field
      copied. */
  predicate ProjectsRow(d: TrackDto, tracks: seq<TrackRow>)
  {
    exists t :: t in tracks && d == ToTrackDto(t)
  }

  /** The liked tracks found in the track table, before ordering. */
  function FoundTracks(tracks: seq<TrackRow>, ids: seq<Guid>): (found: seq<TrackDto>)
    ensures forall d :: d in found ==> d.id in ids && ProjectsRow(d, tracks)
    ensures forall t :: t in tracks && t.id in ids ==> ToTrackDto(t) in found
  {
    var f := Filter(tracks, InIds(ids));
    FilterMembers(tracks, InIds(ids));
    var found := MapSeq(f, ToTrackDto);
    assert forall d :: d in found ==> d.id in ids && ProjectsRow(d, tracks) by {
      forall d | d in found ensures d.id in ids && ProjectsRow(d, tracks) {
        var k :| 0 <= k < |found| && found[k] == d;
        assert f[k] in f;
        assert f[k] in tracks && d == ToTrackDto(f[k]);
      }
    }
    assert forall t :: t in tracks && t.id in ids ==> ToTrackDto(t) in found by {
      forall t | t in tracks && t.id in ids ensures ToTrackDto(t) in found {
        assert t in f;
        var k :| 0 <= k < |f| && f[k] == t;
        assert found[k] == ToTrackDto(t);
      }
    }
    found
  }

  function DtoId(d: TrackDto): Guid
  {
    d.id
  }

  /** Track identifiers are primary keys, so no track is found twice. */
  lemma FoundTracksDistinct(tracks: seq<TrackRow>, ids: seq<Guid>)
    requires UniqueTrackIds(tracks)
    ensures DistinctBy(FoundTracks(tracks, ids), DtoId)
  {
    var f := Filter(tracks, InIds(ids));
    var found := FoundTracks(tracks, ids);
    FilterDistinct(tracks, InIds(ids), (t: TrackRow) => t.id);
    forall i, j | 0 <= i < j < |found| ensures DtoId(found[i]) != DtoId(found[j]) {
      assert found[i].id == f[i].id && found[j].id == f[j].id;
    }
  }

  /** `GetLikedTracks()`: the caller's liked tracks, most recently liked
      first; empty when the caller has liked nothing. */
  function GetLikedTracks(liked: seq<LikedTrackRow>, tracks: seq<TrackRow>, userId: string): (r: seq<TrackDto>)
    ensures LikedIdsNewestFirst(liked, userId) == [] ==> r == []
    ensures forall d :: d in r ==> HasLiked(liked, userId, d.id) && ProjectsRow(d, tracks)
    ensures forall t :: t in tracks && HasLiked(liked, userId, t.id) ==> ToTrackDto(t) in r
    ensures var ids := LikedIdsNewestFirst(liked, userId);
      forall i, j :: 0 <= i < j < |r| ==> 0 <= IndexOf(ids, r[i].id) <= IndexOf(ids, r[j].id)
  {
    var ids := LikedIdsNewestFirst(liked, userId);
    if ids == [] then []
    else
      var found := FoundTracks(tracks, ids);
      var sorted := SortBy(found, PositionIn(ids));
      SameElements(sorted, found);
      assert forall i :: 0 <= i < |sorted| ==> sorted[i].id in ids by {
        forall i | 0 <= i < |sorted| ensures sorted[i].id in ids {
          assert sorted[i] in sorted;
        }
      }
      sorted
  }

  /** The order of `GetLikedTracks` is the order of the likes: a track
      listed earlier was liked no earlier than one listed later. */
  lemma LikedTracksNewestFirst(liked: seq<LikedTrackRow>, tracks: seq<TrackRow>, userId: string)
    ensures var r := GetLikedTracks(liked, tracks, userId);
      var rows := UserLikesNewestFirst(liked, userId);
      var ids := LikedIdsNewestFirst(liked, userId);
      forall i, j :: 0 <= i < j < |r| ==>
        rows[IndexOf(ids, r[i].id)].likedAt >= rows[IndexOf(ids, r[j].id)].likedAt
  {
    var r := GetLikedTracks(liked, tracks, userId);
    var rows := UserLikesNewestFirst(liked, userId);
    var ids := LikedIdsNewestFirst(liked, userId);
    forall i, j | 0 <= i < j < |r|
      ensures rows[IndexOf(ids, r[i].id)].likedAt >= rows[IndexOf(ids, r[j].id)].likedAt
    {
      var a, b := IndexOf(ids, r[i].id), IndexOf(ids, r[j].id);
      assert 0 <= a <= b < |ids| == |rows|;
      if a < b {
        assert rows[a].likedAt >= rows[b].likedAt;
      }
    }
  }

  /** `GetLikedTracksIds()`: the track of every like row of the caller, in
      table order. */
  function GetLikedTracksIds(liked: seq<LikedTrackRow>, userId: string): (r: seq<Guid>)
    ensures |r| == |Filter(liked, ByUser(userId))|
    ensures forall id :: id in r <==> HasLiked(liked, userId, id)
  {
    var rows := Filter(liked, ByUser(userId));
    FilterMembers(liked, ByUser(userId));
    var r := MapSeq(rows, TrackIdOf);
    TrackIdsOfLikes(liked, userId, rows, r);
    r
  }

  /** The tracks of exactly the caller's like rows are exactly the tracks
      the caller liked. */
  lemma TrackIdsOfLikes(liked: seq<LikedTrackRow>, userId: string, rows: seq<LikedTrackRow>, ids: seq<Guid>)
    requires forall lt :: lt in rows <==> lt in liked && lt.userId == userId
    requires |ids| == |rows| && forall i :: 0 <= i < |ids| ==> ids[i] == rows[i].trackId
    ensures forall id :: id in ids <==> HasLiked(liked, userId, id)
  {
    forall id ensures id in ids <==> HasLiked(liked, userId, id) {
      if id in ids {
        var i :| 0 <= i < |ids| && ids[i] == id;
        assert rows[i] in rows;
        var k :| 0 <= k < |liked| && liked[k] == rows[i];
      }
      if HasLiked(liked, userId, id) {
        var k :| 0 <= k < |liked| && liked[k].userId == userId && liked[k].trackId == id;
        assert liked[k] in rows;
        var i :| 0 <= i < |rows| && rows[i] == liked[k];
        assert ids[i] == id;
      }
    }
  }

  /** Each liked track appears at most once, since track identifiers are
      primary keys. */
  lemma LikedTracksDistinct(liked: seq<LikedTrackRow>, tracks: seq<TrackRow>, userId: string)
    requires UniqueTrackIds(tracks)
    ensures var r := GetLikedTracks(liked, tracks, userId);
      forall i, j :: 0 <= i < j < |r| ==> r[i].id != r[j].id
  {
    var ids := LikedIdsNewestFirst(liked, userId);
    if ids != [] {
      var found := FoundTracks(tracks, ids);
      FoundTracksDistinct(tracks, ids);
      PermutationDistinct(found, SortBy(found, PositionIn(ids)), DtoId);
    }
  }
}
