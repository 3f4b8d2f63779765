/** `src/components/AudioProvider.tsx`: the sink that keeps one audio element
    in step with the player store. `Reaction` is the store subscription's
    decision: from the previous and the new snapshot, the commands issued to
    the element. Class `AudioSink` is the element as the effect sees it and
    the effect's own state (subscription and listeners). */
module AudioProvider {
  import opened Common
  import opened Player

  /** A call on the audio element: `audio.src = url`, `load()`, `play()`,
      `pause()`. */
  datatype Command = SetSrc(url: string) | Load | Play | Pause

  /** The element events the effect listens to. */
  datatype AudioEvent = TimeUpdate | LoadedMetadata | Ended

  const Listened: set<AudioEvent> := {TimeUpdate, LoadedMetadata, Ended}

  /** `` `${API_URL}/api/tracks/${id}/stream` `` */
  function StreamUrl(apiUrl: string, id: string): string
  {
    apiUrl + "/api/tracks/" + id + "/stream"
  }

  /** `state.currentTrack?.id`. */
  function CurrentId(s: PlayerState): Option<string>
  {
    if s.currentTrack.Some? then Some(s.currentTrack.value.id) else None
  }

  /** `state.currentTrack?.audioUrl` is truthy. */
  predicate HasAudio(s: PlayerState)
  {
    s.currentTrack.Some? && s.currentTrack.value.audioUrl.Some? && s.currentTrack.value.audioUrl.value != []
  }

  predicate SetsSrc(cmds: seq<Command>)
  {
    exists i :: 0 <= i < |cmds| && cmds[i].SetSrc?
  }

  /** The subscription handler: re-point the source when the current
      track's identifier changed, then play or pause when `isPlaying`
      changed. */
  function Reaction(prev: PlayerState, state: PlayerState, apiUrl: string): (cmds: seq<Command>)
    ensures SetsSrc(cmds) <==> CurrentId(state) != CurrentId(prev)
    ensures CurrentId(state) != CurrentId(prev) && HasAudio(state) ==>
      |cmds| >= 2 && cmds[..2] == [SetSrc(StreamUrl(apiUrl, state.currentTrack.value.id)), Load]
    ensures CurrentId(state) != CurrentId(prev) && !HasAudio(state) ==> cmds[0] == SetSrc([])
    ensures Load in cmds <==> CurrentId(state) != CurrentId(prev) && HasAudio(state)
    ensures (Play in cmds || Pause in cmds) <==> state.isPlaying != prev.isPlaying
    ensures Play in cmds <==> state.isPlaying != prev.isPlaying && state.isPlaying && state.currentTrack.Some?
    ensures !(Play in cmds && Pause in cmds)
  {
    var source :=
      if CurrentId(state) != CurrentId(prev) then
        if HasAudio(state) then [SetSrc(StreamUrl(apiUrl, state.currentTrack.value.id)), Load]
        else [SetSrc([])]
      else [];
    var transport :=
      if state.isPlaying != prev.isPlaying then
        if state.isPlaying && state.currentTrack.Some? then [Play] else [Pause]
      else [];
    assert source == [] ==> source + transport == transport;
    assert source != [] ==> (source + transport)[0].SetSrc?;
    source + transport
  }

  /** A change of track while `isPlaying` stays true loads the new source
      but issues no `play()`. */
  lemma TrackChangeWhilePlaying(prev: PlayerState, state: PlayerState, apiUrl: string)
    requires prev.isPlaying && state.isPlaying && CurrentId(state) != CurrentId(prev) && HasAudio(state)
    ensures Reaction(prev, state, apiUrl) == [SetSrc(StreamUrl(apiUrl, state.currentTrack.value.id)), Load]
  {
  }

  /** While the player was already playing, no reaction ever calls
      `play()`, whatever the new snapshot. */
  lemma NeverPlaysWhilePlaying(prev: PlayerState, state: PlayerState, apiUrl: string)
    requires prev.isPlaying
    ensures Play !in Reaction(prev, state, apiUrl)
  {
  }

  /** Changes to the volume, the time or the duration issue nothing. */
  lemma SettersAreSilent(s: PlayerState, x: real, apiUrl: string)
    ensures Reaction(s, s.(volume := x), apiUrl) == []
    ensures Reaction(s, s.(currentTime := x), apiUrl) == []
    ensures Reaction(s, s.(duration := x), apiUrl) == []
  {
  }

  /** Starting a different track from a paused player: load, then play. */
  lemma StartFromPause(s: PlayerState, t: TrackInfo, playlist: Option<seq<TrackInfo>>, apiUrl: string)
    requires !s.isPlaying && CurrentId(s) != Some(t.id)
    requires t.audioUrl.Some? && t.audioUrl.value != []
    ensures Reaction(s, AfterSetTrack(s, t, playlist), apiUrl) == [SetSrc(StreamUrl(apiUrl, t.id)), Load, Play]
  {
  }

  /** Re-selecting the current track restarts it in the store, yet the sink
      neither reloads the source nor (if it was already playing) plays. */
  lemma ReselectIssuesNothing(s: PlayerState, playlist: Option<seq<TrackInfo>>, apiUrl: string)
    requires s.currentTrack.Some? && s.isPlaying
    ensures Reaction(s, AfterSetTrack(s, s.currentTrack.value, playlist), apiUrl) == []
  {
  }

  /** When the last queued track ends while playing, `playNext` empties the
      player: the source is cleared and the element paused. */
  lemma EndOfQueue(s: PlayerState, apiUrl: string)
    requires s.isPlaying && s.currentTrack.Some? && s.queue != []
    requires s.queue[|s.queue| - 1] == s.currentTrack.value
    requires FindIndex(s.queue, s.currentTrack.value.id) == |s.queue| - 1
    ensures Reaction(s, AfterPlayNext(s), apiUrl) == [SetSrc([]), Pause]
  {
  }

  /** The store call an element event turns into. */
  datatype StoreCall = CallSetCurrentTime(time: real) | CallSetDuration(duration: real) | CallPlayNext

  /** `timeupdate` -> `setCurrentTime(audio.currentTime)`,
      `loadedmetadata` -> `setDuration(audio.duration)`,
      `ended` -> `playNext()`. */
  function CallFor(e: AudioEvent, currentTime: real, duration: real): (c: StoreCall)
    ensures e == TimeUpdate <==> c == CallSetCurrentTime(currentTime)
    ensures e == LoadedMetadata <==> c == CallSetDuration(duration)
    ensures e == Ended <==> c == CallPlayNext
  {
    match e
    case TimeUpdate => CallSetCurrentTime(currentTime)
    case LoadedMetadata => CallSetDuration(duration)
    case Ended => CallPlayNext
  }

  /** The snapshot a store call leaves behind. */
  function AfterCall(s: PlayerState, c: StoreCall): PlayerState
  {
    match c
    case CallSetCurrentTime(t) => s.(currentTime := t)
    case CallSetDuration(d) => s.(duration := d)
    case CallPlayNext => AfterPlayNext(s)
  }

  /** The audio element and the effect's registrations. `issued` records
      the `load`/`play`/`pause` calls and source assignments in order. */
  class AudioSink {
    var src: string
    var currentTime: real
    var duration: real
    var listeners: set<AudioEvent>
    var subscribed: bool
    ghost var issued: seq<Command>

    /** `new Audio()`: no source, nothing registered. */
    constructor ()
      ensures src == [] && listeners == {} && !subscribed && issued == []
    {
      src := [];
      currentTime := 0.0;
      duration := 0.0;
      listeners := {};
      subscribed := false;
      issued := [];
    }

    /** The effect body: subscribe to the store and add the three
      listeners. */
    method Mount()
      modifies this
      ensures subscribed && listeners == old(listeners) + Listened
      ensures src == old(src) && issued == old(issued)
      ensures currentTime == old(currentTime) && duration == old(duration)
    {
      subscribed := true;
      listeners := listeners + Listened;
    }

    /** The subscription handler applied to the element. A rejected `play()`
      promise is only logged: nothing here writes to the store. */
    method OnStateChange(prev: PlayerState, state: PlayerState, apiUrl: string)
      requires subscribed
      modifies this
      ensures issued == old(issued) + Reaction(prev, state, apiUrl)
      ensures CurrentId(state) != CurrentId(prev) ==>
        src == (if HasAudio(state) then StreamUrl(apiUrl, state.currentTrack.value.id) else [])
      ensures CurrentId(state) == CurrentId(prev) ==> src == old(src)
      ensures listeners == old(listeners) && subscribed
      ensures currentTime == old(currentTime) && duration == old(duration)
    {
      if CurrentId(state) != CurrentId(prev) {
        if HasAudio(state) {
          src := StreamUrl(apiUrl, state.currentTrack.value.id);
          issued := issued + [SetSrc(src), Load];
        } else {
          src := [];
          issued := issued + [SetSrc([])];
        }
      }
      if state.isPlaying != prev.isPlaying {
        if state.isPlaying && state.currentTrack.Some? {
          issued := issued + [Play];
        } else {
          issued := issued + [Pause];
        }
      }
    }

    /** The `seek` the effect installs in the store: the time goes straight
      to the playhead, unclamped. */
    method Seek(time: real)
      modifies this
      ensures currentTime == time
      ensures src == old(src) && duration == old(duration) && issued == old(issued)
      ensures listeners == old(listeners) && subscribed == old(subscribed)
    {
      currentTime := time;
    }

    /** An element event reaching the store through the registered
      listener; after cleanup the event reaches nothing. */
    method Dispatch(e: AudioEvent, store: PlayerStore)
      requires store.Valid()
      modifies store
      ensures store.Valid()
      ensures e in listeners ==> store.State() == AfterCall(old(store.State()), CallFor(e, currentTime, duration))
      ensures e !in listeners ==> store.State() == old(store.State())
    {
      if e in listeners {
        match e
        case TimeUpdate => store.SetCurrentTime(currentTime);
        case LoadedMetadata => store.SetDuration(duration);
        case Ended => store.PlayNext();
      }
    }

    /** The effect's cleanup: unsubscribe and remove exactly the three
      listeners it added. */
    method Unmount()
      modifies this
      ensures !subscribed && listeners == old(listeners) - Listened
      ensures src == old(src) && issued == old(issued)
      ensures currentTime == old(currentTime) && duration == old(duration)
    {
      subscribed := false;
      listeners := listeners - Listened;
    }
  }
}
