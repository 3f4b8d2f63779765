/** `src/app/library/liked/page.tsx`: the liked-songs page's duration
    formatter, the playback queue it hands to the player when a row is
    clicked, and its local removal of an unliked row. */
module LikedPage {
  import opened Common
  import opened Player
  import AudioProvider

  /** A row as fetched from `/api/me/liked-tracks`. The payload carries the
      track's audio reference, which the page's `Track` interface leaves
      undeclared. */
  datatype LikedTrack = LikedTrack(
    id: string,
    title: string,
    durationInSeconds: int,
    artistName: string,
    albumCoverImageUrl: Option<string>,
    audioUrl: Option<string>)

  // ---------------------------------------------------------------------
  // formatDuration

  function DigitChar(d: int): char
    requires 0 <= d < 10
  {
    (48 + d) as char
  }

  predicate IsDigit(c: char)
  {
    '0' <= c <= '9'
  }

  /** `Number.prototype.toString()` of a non-negative integer. */
  function NatToString(n: nat): (r: string)
    ensures r != [] && forall i :: 0 <= i < |r| ==> IsDigit(r[i])
  {
    if n < 10 then [DigitChar(n)] else NatToString(n / 10) + [DigitChar(n % 10)]
  }

  /** `Number.prototype.toString()` of an integer. */
  function IntToString(n: int): string
  {
    if n < 0 then "-" + NatToString(-n) else NatToString(n)
  }

  /** The value of a string of decimal digits. */
  function ParseNat(s: string): nat
  {
    if s == [] then 0
    else ParseNat(s[..|s| - 1]) * 10 + (if IsDigit(s[|s| - 1]) then s[|s| - 1] as int - 48 else 0)
  }

  /** Printing then parsing a whole number gives it back. */
  lemma {:induction false} ParsePrinted(n: nat)
    ensures ParseNat(NatToString(n)) == n
  {
    var s := NatToString(n);
    if n >= 10 {
      ParsePrinted(n / 10);
      assert s[..|s| - 1] == NatToString(n / 10);
    }
  }

  /** `String.prototype.padStart(2, '0')`. */
  function PadStart2(s: string): (r: string)
    ensures |s| >= 2 ==> r == s
    ensures |s| < 2 ==> |r| == 2 && r[2 - |s|..] == s
  {
    if |s| >= 2 then s else if |s| == 1 then "0" + s else "00"
  }

  /** JavaScript `a % b` on integers for b > 0: the sign follows `a`. */
  function JsRem(a: int, b: int): (r: int)
    requires b > 0
    ensures a >= 0 ==> r == a % b
  {
    if a >= 0 then a % b else -((-a) % b)
  }

  /** `formatDuration(seconds)`: `Math.floor(seconds / 60)`, a colon, and
      `seconds % 60` padded to two characters. For a non-negative duration
      that is the decimal whole minutes, a colon, then the tens and units
      digits of the remaining seconds. */
  function FormatDuration(seconds: int): (r: string)
    ensures seconds >= 0 ==>
      r == NatToString(seconds / 60) + ":" + [DigitChar(seconds % 60 / 10), DigitChar(seconds % 60 % 10)]
  {
    var r := IntToString(seconds / 60) + ":" + PadStart2(IntToString(JsRem(seconds, 60)));
    if seconds >= 0 then
      PadSeconds(seconds);
      assert IntToString(seconds / 60) == NatToString(seconds / 60);
      r
    else r
  }

  /** For a non-negative duration, the seconds field prints as exactly two
      digits. */
  lemma PadSeconds(seconds: nat)
    ensures PadStart2(IntToString(JsRem(seconds, 60))) == [DigitChar(seconds % 60 / 10), DigitChar(seconds % 60 % 10)]
  {
    var rem := seconds % 60;
    assert JsRem(seconds, 60) == rem;
    if rem < 10 {
      assert IntToString(rem) == [DigitChar(rem)];
    } else {
      assert IntToString(rem) == NatToString(rem / 10) + [DigitChar(rem % 10)];
    }
  }

  /** Two printed digits read back as their value. */
  lemma ParseTwoDigits(rem: nat)
    requires rem < 60
    ensures ParseNat([DigitChar(rem / 10), DigitChar(rem % 10)]) == rem
  {
    var two := [DigitChar(rem / 10), DigitChar(rem % 10)];
    assert two[..1] == [two[0]];
    assert [two[0]][..0] == [];
    assert ParseNat(two[..1]) == rem / 10;
  }

  /** `m:ss` read back into seconds. */
  function ParseDuration(s: string): Option<nat>
  {
    if |s| < 4 || s[|s| - 3] != ':' then None
    else Some(60 * ParseNat(s[..|s| - 3]) + ParseNat(s[|s| - 2..]))
  }

  /** Printed minutes, a colon and two printed digits read back as the
      minutes and the seconds. */
  lemma ReadPrinted(minutes: nat, rem: nat)
    requires rem < 60
    ensures ParseDuration(NatToString(minutes) + ":" + [DigitChar(rem / 10), DigitChar(rem % 10)])
      == Some(60 * minutes + rem)
  {
    var m := NatToString(minutes);
    var two := [DigitChar(rem / 10), DigitChar(rem % 10)];
    var r := m + ":" + two;
    ParseTwoDigits(rem);
    ParsePrinted(minutes);
    assert r[..|r| - 3] == m && r[|r| - 2..] == two && r[|r| - 3] == ':';
    ReadFields(r, minutes, rem);
  }

  /** Reading a formatted non-negative duration gives the duration back. */
  lemma FormatParses(seconds: nat)
    ensures ParseDuration(FormatDuration(seconds)) == Some(seconds)
  {
    ReadPrinted(seconds / 60, seconds % 60);
    MinutesAndSeconds(seconds);
  }

  lemma MinutesAndSeconds(seconds: nat)
    ensures 60 * (seconds / 60) + seconds % 60 == seconds
  {
  }

  /** `m:ss` text whose fields read as `minutes` and `rest` reads as that
      many seconds. */
  lemma ReadFields(r: string, minutes: nat, rest: nat)
    requires |r| >= 4 && r[|r| - 3] == ':'
    requires ParseNat(r[..|r| - 3]) == minutes && ParseNat(r[|r| - 2..]) == rest
    ensures ParseDuration(r) == Some(60 * minutes + rest)
  {
  }

  /** The worked cases: 403 s, 65 s and 0 s. */
  lemma FormatExamples()
    ensures FormatDuration(403) == "6:43"
    ensures FormatDuration(65) == "1:05"
    ensures FormatDuration(0) == "0:00"
  {
    assert NatToString(43) == NatToString(4) + [DigitChar(3)];
  }

  // ---------------------------------------------------------------------
  // handleTrackClick

  /** The `tracks.map(...)` callback as written: the row's audio reference
      is not copied, so the result has no `audioUrl`. */
  function ToTrackInfoAsWritten(t: LikedTrack): TrackInfo
  {
    TrackInfo(t.id, t.title, t.artistName, t.albumCoverImageUrl, None)
  }

  function PlaybackQueueAsWritten(tracks: seq<LikedTrack>): (q: seq<TrackInfo>)
    ensures |q| == |tracks|
    ensures forall i :: 0 <= i < |q| ==> q[i] == ToTrackInfoAsWritten(tracks[i])
  {
    seq(|tracks|, i requires 0 <= i < |tracks| => ToTrackInfoAsWritten(tracks[i]))
  }

  /** The callback with the audio reference carried over. */
  function ToTrackInfo(t: LikedTrack): TrackInfo
  {
    TrackInfo(t.id, t.title, t.artistName, t.albumCoverImageUrl, t.audioUrl)
  }

  /** The playback queue: one entry per row, in row order, with id, title,
      artist name, cover (from the album cover) and audio reference. */
  function PlaybackQueue(tracks: seq<LikedTrack>): (q: seq<TrackInfo>)
    ensures |q| == |tracks|
    ensures forall i :: 0 <= i < |q| ==>
      && q[i].id == tracks[i].id && q[i].title == tracks[i].title
      && q[i].artistName == tracks[i].artistName
      && q[i].coverImageUrl == tracks[i].albumCoverImageUrl
      && q[i].audioUrl == tracks[i].audioUrl
  {
    seq(|tracks|, i requires 0 <= i < |tracks| => ToTrackInfo(tracks[i]))
  }

  /** The track and queue `handleTrackClick(_, index)` passes to
      `setTrack`: entry `index` and the queue from `index` on, so the chosen
      track heads its queue. */
  function TrackClick(queue: seq<TrackInfo>, index: nat): (r: (TrackInfo, seq<TrackInfo>))
    requires index < |queue|
    ensures |r.1| == |queue| - index && r.1[0] == r.0
    ensures forall k :: 0 <= k < |r.1| ==> r.1[k] == queue[index + k]
  {
    (queue[index], queue[index..])
  }

  /** The click as the page does it: the rows mapped without their audio
      reference, the chosen one started with the rest of the list queued
      behind it, so the current track is in the queue and has no audio. */
  method HandleTrackClick(tracks: seq<LikedTrack>, index: nat, player: PlayerStore)
    requires index < |tracks| && player.Valid()
    modifies player
    ensures player.Valid()
    ensures var (track, queue) := TrackClick(PlaybackQueueAsWritten(tracks), index);
      player.State() == AfterSetTrack(old(player.State()), track, Some(queue))
    ensures CurrentInQueue(player.State())
    ensures player.State().currentTrack == Some(ToTrackInfoAsWritten(tracks[index]))
    ensures player.State().currentTrack.value.audioUrl.None?
  {
    var playbackQueue := PlaybackQueueAsWritten(tracks);
    var trackToPlay := playbackQueue[index];
    player.SetTrack(trackToPlay, Some(playbackQueue[index..]));
    assert player.State().queue[0] == trackToPlay;
  }

  /** As written, a track started from this page never gets a stream: the
      sink clears the source and issues no `load()`, whatever the row's
      audio reference. */
  lemma ClickAsWrittenNeverLoads(prev: PlayerState, tracks: seq<LikedTrack>, index: nat, apiUrl: string)
    requires index < |tracks|
    ensures var (track, queue) := TrackClick(PlaybackQueueAsWritten(tracks), index);
      var cmds := AudioProvider.Reaction(prev, AfterSetTrack(prev, track, Some(queue)), apiUrl);
      AudioProvider.Load !in cmds
      && (AudioProvider.CurrentId(prev) != Some(tracks[index].id) ==> cmds[0] == AudioProvider.SetSrc([]))
  {
  }

  /** With the audio reference carried over, starting a row that has audio
      and is not already current loads its stream. */
  lemma ClickLoadsStream(prev: PlayerState, tracks: seq<LikedTrack>, index: nat, apiUrl: string)
    requires index < |tracks|
    requires tracks[index].audioUrl.Some? && tracks[index].audioUrl.value != []
    requires AudioProvider.CurrentId(prev) != Some(tracks[index].id)
    ensures var (track, queue) := TrackClick(PlaybackQueue(tracks), index);
      var cmds := AudioProvider.Reaction(prev, AfterSetTrack(prev, track, Some(queue)), apiUrl);
      cmds[..2] == [AudioProvider.SetSrc(AudioProvider.StreamUrl(apiUrl, tracks[index].id)), AudioProvider.Load]
  {
  }

  // ---------------------------------------------------------------------
  // handleUnlikeOnPage

  /** The filter callback `t => t.id !== trackId`. */
  function OtherThan(trackId: string): LikedTrack -> bool
  {
    (t: LikedTrack) => t.id != trackId
  }

  /** `handleUnlikeOnPage(trackId)`: the list without that track. */
  function UnlikeOnPage(tracks: seq<LikedTrack>, trackId: string): (r: seq<LikedTrack>)
    ensures forall t :: t in r <==> t in tracks && t.id != trackId
  {
    FilterMembers(tracks, OtherThan(trackId));
    Filter(tracks, OtherThan(trackId))
  }

  /** The rows that stay keep their relative order. */
  lemma UnlikeKeepsOrder(a: seq<LikedTrack>, b: seq<LikedTrack>, trackId: string)
    ensures UnlikeOnPage(a + b, trackId) == UnlikeOnPage(a, trackId) + UnlikeOnPage(b, trackId)
  {
    FilterAppend(a, b, OtherThan(trackId));
  }
}
