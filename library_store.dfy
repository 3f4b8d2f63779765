/** `src/stores/libraryStore.ts`: the set of liked track identifiers with an
    optimistic toggle that rolls back when the request fails. Request
    outcomes are inputs of the model. */
module LibraryStore {
  import opened Common

  /** The request `toggleLikeTrack` sends. */
  datatype LikeRequest = DeleteLike(trackId: string) | PostLike(trackId: string)

  /** The optimistic set: `id`'s membership flipped, every other identifier
      as it was. */
  function Flipped(liked: set<string>, id: string): (r: set<string>)
    ensures id in r <==> id !in liked
    ensures forall x :: x != id ==> (x in r <==> x in liked)
  {
    if id in liked then liked - {id} else liked + {id}
  }

  /** DELETE when the track was liked before the toggle, POST otherwise. */
  function RequestFor(liked: set<string>, id: string): (req: LikeRequest)
    ensures req.trackId == id
    ensures req.DeleteLike? <==> id in liked
  {
    if id in liked then DeleteLike(id) else PostLike(id)
  }

  /** The set after the whole toggle: flipped on success, the snapshot
      taken before the toggle on failure. */
  function AfterToggle(liked: set<string>, id: string, requestSucceeds: bool): (r: set<string>)
    ensures !requestSucceeds ==> r == liked
    ensures requestSucceeds ==> r == Flipped(liked, id)
  {
    if requestSucceeds then Flipped(liked, id) else liked
  }

  /** Two successful toggles of one identifier restore the original set,
      and the second sends the opposite request of the first. */
  lemma ToggleTwice(liked: set<string>, id: string)
    ensures AfterToggle(AfterToggle(liked, id, true), id, true) == liked
    ensures RequestFor(Flipped(liked, id), id).DeleteLike? != RequestFor(liked, id).DeleteLike?
  {
    var once := Flipped(liked, id);
    assert forall x :: x in Flipped(once, id) <==> x in liked;
  }

  class LibraryStore {
    var likedTrackIds: set<string>

    constructor ()
      ensures likedTrackIds == {}
    {
      likedTrackIds := {};
    }

    /** `setLikedTracks(ids)`: `new Set(ids)`, duplicates collapsed. */
    method SetLikedTracks(ids: seq<string>)
      modifies this
      ensures forall x :: x in likedTrackIds <==> x in ids
    {
      likedTrackIds := set x | x in ids;
    }

    /** `fetchLikedTracks()`: the fetched identifiers replace the set; a
      failed request (`None`) is logged and changes nothing. */
    method FetchLikedTracks(response: Option<seq<string>>)
      modifies this
      ensures response.None? ==> likedTrackIds == old(likedTrackIds)
      ensures response.Some? ==> forall x :: x in likedTrackIds <==> x in response.value
    {
      if response.Some? {
        likedTrackIds := set x | x in response.value;
      }
    }

    /** `toggleLikeTrack(id)`: flip at once, send the request, restore the
      snapshot if it fails. */
    method ToggleLikeTrack(id: string, requestSucceeds: bool) returns (req: LikeRequest)
      modifies this
      ensures req == RequestFor(old(likedTrackIds), id)
      ensures likedTrackIds == AfterToggle(old(likedTrackIds), id, requestSucceeds)
    {
      var snapshot := likedTrackIds;
      var currentLikedState := id in snapshot;
      var newLikedTrackIds := snapshot;
      if currentLikedState {
        newLikedTrackIds := newLikedTrackIds - {id};
      } else {
        newLikedTrackIds := newLikedTrackIds + {id};
      }
      likedTrackIds := newLikedTrackIds;
      req := if currentLikedState then DeleteLike(id) else PostLike(id);
      if !requestSucceeds {
        likedTrackIds := snapshot;
      }
    }

    /** `isLiked(id)`. */
    method IsLiked(id: string) returns (b: bool)
      ensures b <==> id in likedTrackIds
    {
      b := id in likedTrackIds;
    }
  }
}
