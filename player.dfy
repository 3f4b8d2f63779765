/** `src/stores/playerStore.ts`: the playback store. `PlayerState` is one
    snapshot of the store's data fields; the `After...` functions give the
    snapshot each action leaves behind (what its `set(...)` call merges in),
    and class `PlayerStore` is the store object whose methods overwrite its
    fields accordingly. The store has no shuffle, sorting, repeat mode or
    clamping. */
module Player {
  import opened Common

  /** `TrackInfo`. `null` and an absent property are both `None`. */
  datatype TrackInfo = TrackInfo(
    id: string,
    title: string,
    artistName: string,
    coverImageUrl: Option<string>,
    audioUrl: Option<string>)

  /** The store's data fields. `duration`, `currentTime` and `volume` are
      JavaScript numbers, kept as reals and stored exactly as given. */
  datatype PlayerState = PlayerState(
    currentTrack: Option<TrackInfo>,
    queue: seq<TrackInfo>,
    isPlaying: bool,
    duration: real,
    currentTime: real,
    volume: real)

  /** The state the store is created in. */
  const Initial: PlayerState := PlayerState(None, [], false, 0.0, 0.0, 0.75)

  /** The invariant every action keeps: playing needs a current track. */
  predicate Consistent(s: PlayerState)
  {
    s.isPlaying ==> s.currentTrack.Some?
  }

  /** Nothing is selected and nothing is queued or playing. */
  predicate Idle(s: PlayerState)
  {
    s.currentTrack.None? && s.queue == [] && !s.isPlaying
  }

  /** `queue.findIndex(t => t.id === id)`: the first index holding `id`,
      or -1. */
  function FindIndex(queue: seq<TrackInfo>, id: string): (i: int)
    ensures -1 <= i < |queue|
    ensures i >= 0 ==> queue[i].id == id
    ensures forall j :: 0 <= j < |queue| && (i == -1 || j < i) ==> queue[j].id != id
  {
    if queue == [] then -1
    else if queue[0].id == id then 0
    else
      var k := FindIndex(queue[1..], id);
      if k == -1 then -1 else k + 1
  }

  /** `id` first occurs in the queue at index `i`. */
  predicate FirstAt(queue: seq<TrackInfo>, id: string, i: int)
  {
    0 <= i < |queue| && queue[i].id == id && forall k :: 0 <= k < i ==> queue[k].id != id
  }

  /** No queue entry carries `id`. */
  predicate Absent(queue: seq<TrackInfo>, id: string)
  {
    forall k :: 0 <= k < |queue| ==> queue[k].id != id
  }

  /** No two queue entries share an identifier. */
  predicate DistinctIds(queue: seq<TrackInfo>)
  {
    forall i, j :: 0 <= i < j < |queue| ==> queue[i].id != queue[j].id
  }

  /** The current track's identifier occurs in the queue. */
  predicate CurrentInQueue(s: PlayerState)
  {
    s.currentTrack.Some? ==> exists i :: 0 <= i < |s.queue| && s.queue[i].id == s.currentTrack.value.id
  }

  /** `setTrack(track, playlist)`: always (re)starts `track`, also when it
      is already current. `playlist || [track]` replaces only an absent
      playlist: an empty array is truthy in JavaScript and is kept. */
  function AfterSetTrack(s: PlayerState, track: TrackInfo, playlist: Option<seq<TrackInfo>>): (r: PlayerState)
    ensures Consistent(r) && r.isPlaying && r.currentTrack == Some(track)
    ensures r.currentTime == 0.0 && r.duration == 0.0 && r.volume == s.volume
    ensures playlist.None? ==> r.queue == [track]
    ensures playlist.Some? ==> r.queue == playlist.value
  {
    s.(currentTrack := Some(track),
       queue := if playlist.Some? then playlist.value else [track],
       isPlaying := true,
       currentTime := 0.0,
       duration := 0.0)
  }

  /** `togglePlayPause()`: flips `isPlaying` only when a track is current. */
  function AfterTogglePlayPause(s: PlayerState): (r: PlayerState)
    ensures Consistent(s) ==> Consistent(r)
    ensures s.currentTrack.Some? ==> r == s.(isPlaying := !s.isPlaying)
    ensures s.currentTrack.None? ==> r == s
  {
    if s.currentTrack.Some? then s.(isPlaying := !s.isPlaying) else s
  }

  /** `playNext()`: moves to the entry after the first one carrying the
      current identifier; when the current track is last or missing from
      the queue, the player becomes idle. */
  function AfterPlayNext(s: PlayerState): (r: PlayerState)
    ensures Consistent(s) ==> Consistent(r)
    ensures r.duration == s.duration && r.currentTime == s.currentTime && r.volume == s.volume
    ensures s.currentTrack.None? ==> r == s
    ensures s.currentTrack.Some? ==> Idle(r) || (r.isPlaying && r.queue == s.queue && CurrentInQueue(r))
    ensures s.currentTrack.Some? && Absent(s.queue, s.currentTrack.value.id) ==> Idle(r)
    ensures forall i :: s.currentTrack.Some? && FirstAt(s.queue, s.currentTrack.value.id, i) ==>
      if i + 1 < |s.queue| then r == s.(currentTrack := Some(s.queue[i + 1]), isPlaying := true)
      else Idle(r)
  {
    if s.currentTrack.None? then s
    else
      var i := FindIndex(s.queue, s.currentTrack.value.id);
      if i == -1 || i == |s.queue| - 1 then
        s.(currentTrack := None, isPlaying := false, queue := [])
      else
        s.(currentTrack := Some(s.queue[i + 1]), isPlaying := true)
  }

  /** `playPrevious()`: moves to the entry before the current one; at the
      head of the queue, or when the current track is not in it, nothing
      changes (no wrap-around). */
  function AfterPlayPrevious(s: PlayerState): (r: PlayerState)
    ensures Consistent(s) ==> Consistent(r)
    ensures r.queue == s.queue && r.duration == s.duration && r.currentTime == s.currentTime && r.volume == s.volume
    ensures r == s || (r.isPlaying && CurrentInQueue(r))
    ensures s.currentTrack.None? ==> r == s
    ensures s.currentTrack.Some? && Absent(s.queue, s.currentTrack.value.id) ==> r == s
    ensures forall i :: s.currentTrack.Some? && FirstAt(s.queue, s.currentTrack.value.id, i) ==>
      if i == 0 then r == s else r == s.(currentTrack := Some(s.queue[i - 1]), isPlaying := true)
  {
    if s.currentTrack.None? then s
    else
      var i := FindIndex(s.queue, s.currentTrack.value.id);
      if i > 0 then s.(currentTrack := Some(s.queue[i - 1]), isPlaying := true)
      else s
  }

  /** `clearPlayer()`: the idle triple; time, duration and volume stay. */
  function AfterClearPlayer(s: PlayerState): (r: PlayerState)
    ensures Idle(r) && Consistent(r)
    ensures r.duration == s.duration && r.currentTime == s.currentTime && r.volume == s.volume
  {
    s.(currentTrack := None, isPlaying := false, queue := [])
  }

  /** In a queue without repeated identifiers, the first index holding an
      entry's identifier is that entry's index. */
  lemma {:induction false} FindIndexOfEntry(queue: seq<TrackInfo>, k: nat)
    requires DistinctIds(queue) && k < |queue|
    ensures FindIndex(queue, queue[k].id) == k
  {
  }

  /** `setTrack` establishes queue membership when the playlist is absent
      or contains the track; every other action preserves it. */
  lemma MembershipPreserved(s: PlayerState, track: TrackInfo, playlist: Option<seq<TrackInfo>>)
    requires CurrentInQueue(s)
    ensures playlist.None? || track in playlist.value ==> CurrentInQueue(AfterSetTrack(s, track, playlist))
    ensures CurrentInQueue(AfterTogglePlayPause(s))
    ensures CurrentInQueue(AfterPlayNext(s))
    ensures CurrentInQueue(AfterPlayPrevious(s))
    ensures CurrentInQueue(AfterClearPlayer(s))
  {
    var r := AfterSetTrack(s, track, playlist);
    if playlist.None? {
      assert r.queue[0].id == track.id;
    } else if track in playlist.value {
      var i :| 0 <= i < |playlist.value| && playlist.value[i] == track;
      assert r.queue[i].id == track.id;
    }
  }

  /** Moving forward undoes moving back: from any entry but the first of a
      queue without repeated identifiers, `playPrevious` then `playNext`
      returns to the same track. */
  lemma PreviousThenNext(s: PlayerState, k: nat)
    requires DistinctIds(s.queue) && 0 < k < |s.queue|
    requires s.currentTrack == Some(s.queue[k])
    ensures AfterPlayNext(AfterPlayPrevious(s)).currentTrack == s.currentTrack
    ensures AfterPlayNext(AfterPlayPrevious(s)).queue == s.queue
  {
    FindIndexOfEntry(s.queue, k);
    FindIndexOfEntry(s.queue, k - 1);
  }

  /** `playNext` then `playPrevious` returns to the same track unless the
      queue ran out. */
  lemma NextThenPrevious(s: PlayerState, k: nat)
    requires DistinctIds(s.queue) && k + 1 < |s.queue|
    requires s.currentTrack == Some(s.queue[k])
    ensures AfterPlayPrevious(AfterPlayNext(s)).currentTrack == s.currentTrack
  {
    FindIndexOfEntry(s.queue, k);
    FindIndexOfEntry(s.queue, k + 1);
  }

  /** `playNext` applied n times. */
  function PlayNextTimes(s: PlayerState, n: nat): PlayerState
    decreases n
  {
    if n == 0 then s else PlayNextTimes(AfterPlayNext(s), n - 1)
  }

  /** One `playNext` from entry j of a queue without repeated identifiers:
      entry j+1 plays, or the player becomes idle after the last entry. */
  lemma NextFromEntry(s: PlayerState, j: nat)
    requires DistinctIds(s.queue) && j < |s.queue|
    requires s.currentTrack == Some(s.queue[j])
    ensures j + 1 < |s.queue| ==>
      AfterPlayNext(s) == s.(currentTrack := Some(s.queue[j + 1]), isPlaying := true)
    ensures j + 1 == |s.queue| ==> Idle(AfterPlayNext(s))
  {
    FindIndexOfEntry(s.queue, j);
  }

  /** A walk of n steps is one step followed by a walk of n-1 steps. */
  lemma StepThenWalk(s: PlayerState, t: PlayerState, n: nat)
    requires n > 0 && AfterPlayNext(s) == t
    ensures PlayNextTimes(s, n) == PlayNextTimes(t, n - 1)
  {
  }

  /** Walking a queue without repeated identifiers from entry k: after n
      steps short of the end the (k+n)-th entry plays. */
  lemma {:induction false} WalkQueue(s: PlayerState, k: nat, n: nat)
    requires DistinctIds(s.queue) && k < |s.queue|
    requires s.currentTrack == Some(s.queue[k])
    requires 0 < n && k + n < |s.queue|
    ensures PlayNextTimes(s, n) == s.(currentTrack := Some(s.queue[k + n]), isPlaying := true)
    decreases n
  {
    NextFromEntry(s, k);
    var t := s.(currentTrack := Some(s.queue[k + 1]), isPlaying := true);
    StepThenWalk(s, t, n);
    if n > 1 {
      WalkQueue(t, k + 1, n - 1);
      var next := Some(s.queue[k + n]);
      assert t.(currentTrack := next, isPlaying := true) == s.(currentTrack := next, isPlaying := true);
    }
  }

  /** One step more than there are entries left after entry k makes the
      player idle: playback does not wrap around to the first entry. */
  lemma {:induction false} WalkPastEnd(s: PlayerState, k: nat)
    requires DistinctIds(s.queue) && k < |s.queue|
    requires s.currentTrack == Some(s.queue[k])
    ensures Idle(PlayNextTimes(s, |s.queue| - k))
    decreases |s.queue| - k
  {
    NextFromEntry(s, k);
    if k + 1 < |s.queue| {
      var t := s.(currentTrack := Some(s.queue[k + 1]), isPlaying := true);
      StepThenWalk(s, t, |s.queue| - k);
      WalkPastEnd(t, k + 1);
    } else {
      StepThenWalk(s, AfterPlayNext(s), 1);
    }
  }

  /** The store object. Each method overwrites the fields the source's
      `set(...)` call names and leaves the others. */
  class PlayerStore {
    var currentTrack: Option<TrackInfo>
    var queue: seq<TrackInfo>
    var isPlaying: bool
    var duration: real
    var currentTime: real
    var volume: real

    function State(): PlayerState
      reads this
    {
      PlayerState(currentTrack, queue, isPlaying, duration, currentTime, volume)
    }

    ghost predicate Valid()
      reads this
    {
      Consistent(State())
    }

    constructor ()
      ensures Valid() && State() == Initial
    {
      currentTrack := None;
      queue := [];
      isPlaying := false;
      duration := 0.0;
      currentTime := 0.0;
      volume := 0.75;
    }

    /** `setVolume(volume)`: stored as given, no clamping. */
    method SetVolume(v: real)
      requires Valid()
      modifies this
      ensures Valid() && State() == old(State()).(volume := v)
    {
      volume := v;
    }

    /** `setDuration(duration)`: stored as given. */
    method SetDuration(d: real)
      requires Valid()
      modifies this
      ensures Valid() && State() == old(State()).(duration := d)
    {
      duration := d;
    }

    /** `setCurrentTime(time)`: stored as given. */
    method SetCurrentTime(t: real)
      requires Valid()
      modifies this
      ensures Valid() && State() == old(State()).(currentTime := t)
    {
      currentTime := t;
    }

    /** The store's own `seek` only logs; the audio sink installs the one
      that moves the playhead. */
    method Seek(t: real)
      requires Valid()
      ensures Valid() && State() == old(State())
    {
    }

    method SetTrack(track: TrackInfo, playlist: Option<seq<TrackInfo>>)
      requires Valid()
      modifies this
      ensures Valid() && State() == AfterSetTrack(old(State()), track, playlist)
    {
      currentTrack := Some(track);
      queue := if playlist.Some? then playlist.value else [track];
      isPlaying := true;
      currentTime := 0.0;
      duration := 0.0;
    }

    method TogglePlayPause()
      requires Valid()
      modifies this
      ensures Valid() && State() == AfterTogglePlayPause(old(State()))
    {
      if currentTrack.Some? {
        isPlaying := !isPlaying;
      }
    }

    method PlayNext()
      requires Valid()
      modifies this
      ensures Valid() && State() == AfterPlayNext(old(State()))
    {
      if currentTrack.None? {
        return;
      }
      var currentIndex := FindIndex(queue, currentTrack.value.id);
      if currentIndex == -1 || currentIndex == |queue| - 1 {
        currentTrack, isPlaying, queue := None, false, [];
      } else {
        currentTrack, isPlaying := Some(queue[currentIndex + 1]), true;
      }
    }

    method PlayPrevious()
      requires Valid()
      modifies this
      ensures Valid() && State() == AfterPlayPrevious(old(State()))
    {
      if currentTrack.None? {
        return;
      }
      var currentIndex := FindIndex(queue, currentTrack.value.id);
      if currentIndex > 0 {
        currentTrack, isPlaying := Some(queue[currentIndex - 1]), true;
      }
    }

    method ClearPlayer()
      requires Valid()
      modifies this
      ensures Valid() && State() == AfterClearPlayer(old(State()))
    {
      currentTrack, isPlaying, queue := None, false, [];
    }
  }
}
