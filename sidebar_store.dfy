/** `src/stores/sidebarStore.ts`: the playlists listed in the sidebar. */
module SidebarStore {
  import opened Common

  datatype Playlist = Playlist(id: string, name: string)

  /** The filter callback `p => p.id !== playlistId`. */
  function OtherThan(playlistId: string): Playlist -> bool
  {
    (p: Playlist) => p.id != playlistId
  }

  /** `playlists.filter(p => p.id !== playlistId)`. */
  function WithoutPlaylist(playlists: seq<Playlist>, playlistId: string): (r: seq<Playlist>)
    ensures forall p :: p in r <==> p in playlists && p.id != playlistId
  {
    FilterMembers(playlists, OtherThan(playlistId));
    Filter(playlists, OtherThan(playlistId))
  }

  /** Removal keeps the relative order of the remaining playlists: removing
      from a concatenation removes from each part. */
  lemma RemoveKeepsOrder(a: seq<Playlist>, b: seq<Playlist>, playlistId: string)
    ensures WithoutPlaylist(a + b, playlistId) == WithoutPlaylist(a, playlistId) + WithoutPlaylist(b, playlistId)
  {
    FilterAppend(a, b, OtherThan(playlistId));
  }

  /** Every entry with another identifier keeps its multiplicity. */
  lemma RemoveKeepsOthers(playlists: seq<Playlist>, playlistId: string, p: Playlist)
    requires p.id != playlistId
    ensures multiset(WithoutPlaylist(playlists, playlistId))[p] == multiset(playlists)[p]
  {
    FilterCount(playlists, OtherThan(playlistId), p);
  }

  /** Removing an identifier that is not listed changes nothing. */
  lemma RemoveAbsent(playlists: seq<Playlist>, playlistId: string)
    requires forall i :: 0 <= i < |playlists| ==> playlists[i].id != playlistId
    ensures WithoutPlaylist(playlists, playlistId) == playlists
  {
    FilterKeepsAll(playlists, OtherThan(playlistId));
  }

  /** Outcome of `addTrackToPlaylist`: resolved, or the request's error
      rethrown to the caller. */
  datatype AddOutcome = Resolved | Rejected

  /** The request `addTrackToPlaylist` posts. */
  datatype AddTrackRequest = AddTrackRequest(playlistId: string, trackId: string)

  class SidebarStore {
    var playlists: seq<Playlist>

    constructor ()
      ensures playlists == []
    {
      playlists := [];
    }

    method SetPlaylists(ps: seq<Playlist>)
      modifies this
      ensures playlists == ps
    {
      playlists := ps;
    }

    /** `addPlaylist(p)`: appended at the end. */
    method AddPlaylist(p: Playlist)
      modifies this
      ensures playlists == old(playlists) + [p]
    {
      playlists := playlists + [p];
    }

    method RemovePlaylist(playlistId: string)
      modifies this
      ensures playlists == WithoutPlaylist(old(playlists), playlistId)
    {
      playlists := WithoutPlaylist(playlists, playlistId);
    }

    /** `addTrackToPlaylist(playlistId, trackId)`: posts the request; a
      failure is logged and rethrown. The playlist list is not touched. */
    method AddTrackToPlaylist(playlistId: string, trackId: string, requestSucceeds: bool)
      returns (req: AddTrackRequest, outcome: AddOutcome)
      ensures req == AddTrackRequest(playlistId, trackId)
      ensures outcome == Rejected <==> !requestSucceeds
    {
      req := AddTrackRequest(playlistId, trackId);
      outcome := if requestSucceeds then Resolved else Rejected;
    }
  }
}
