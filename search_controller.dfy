/** `Controllers/SearchController.cs`: a case-insensitive substring search
    over artist names, album titles and track titles, capped at 5, 5 and 10
    results. The query string is `None` when the parameter is missing. */
module SearchController {
  import opened Common
  import opened Catalog

  datatype ArtistDto = ArtistDto(id: Guid, name: string, profileImageUrl: Option<string>, isVerified: bool)

  /** `AlbumDto`; `CoverVideoUrl` is never filled in by the search. */
  datatype AlbumDto = AlbumDto(id: Guid, title: string, coverImageUrl: Option<string>)

  datatype SearchResult = SearchResult(artists: seq<ArtistDto>, albums: seq<AlbumDto>, tracks: seq<TrackDto>)

  const ArtistLimit := 5
  const AlbumLimit := 5
  const TrackLimit := 10

  /** The characters `Char.IsWhiteSpace` accepts: the Unicode separators
      and the control characters U+0009 to U+000D, U+0085. */
  predicate IsWhiteSpace(c: char)
  {
    || ('\t' <= c <= '\r') || c == ' ' || c == '\U{85}' || c == '\U{A0}'
    || c == '\U{1680}' || ('\U{2000}' <= c <= '\U{200A}') || c == '\U{2028}' || c == '\U{2029}'
    || c == '\U{202F}' || c == '\U{205F}' || c == '\U{3000}'
  }

  /** `string.IsNullOrWhiteSpace`. */
  predicate IsNullOrWhiteSpace(s: Option<string>)
  {
    s.None? || forall i :: 0 <= i < |s.value| ==> IsWhiteSpace(s.value[i])
  }

  function LowerChar(c: char): (l: char)
    ensures 'A' <= c <= 'Z' ==> l as int == c as int + 32
    ensures !('A' <= c <= 'Z') ==> l == c
  {
    if 'A' <= c <= 'Z' then (c as int + 32) as char else c
  }

  /** `ToLower` on the ASCII letters; every other character is unchanged. */
  function Lower(s: string): (r: string)
    ensures |r| == |s|
    ensures forall i :: 0 <= i < |s| ==> r[i] == LowerChar(s[i])
  {
    MapSeq(s, LowerChar)
  }

  /** Lowering twice is lowering once. */
  lemma LowerIdempotent(s: string)
    ensures Lower(Lower(s)) == Lower(s)
  {
    var once := Lower(s);
    forall i | 0 <= i < |s| ensures Lower(once)[i] == once[i] {
      assert !('A' <= once[i] <= 'Z');
    }
  }

  /** `string.Contains`: `needle` occurs in `text` at some position. */
  predicate Contains(text: string, needle: string)
  {
    needle <= text || (text != [] && Contains(text[1..], needle))
  }

  /** `x.ToLower().Contains(lowerCaseQuery)`. */
  predicate Matches(text: string, lowerQuery: string)
  {
    Contains(Lower(text), lowerQuery)
  }

  function ArtistMatches(q: string): ArtistRow -> bool
  {
    (a: ArtistRow) => Matches(a.name, q)
  }

  function AlbumMatches(q: string): AlbumRow -> bool
  {
    (a: AlbumRow) => Matches(a.title, q)
  }

  function TrackMatches(q: string): TrackRow -> bool
  {
    (t: TrackRow) => Matches(t.title, q)
  }

  function ToArtistDto(a: ArtistRow): ArtistDto
  {
    ArtistDto(a.id, a.name, a.profileImageUrl, a.isVerified)
  }

  function ToAlbumDto(a: AlbumRow): AlbumDto
  {
    AlbumDto(a.id, a.title, a.coverImageUrl)
  }

  /** `Where(keep).Take(limit).Select(f)`: the first `limit` matching rows,
      projected. */
  function FirstMatches<R, D>(rows: seq<R>, keep: R -> bool, limit: nat, f: R -> D): (r: seq<D>)
    ensures |r| == if |Filter(rows, keep)| <= limit then |Filter(rows, keep)| else limit
    ensures forall i :: 0 <= i < |r| ==>
      var row := Filter(rows, keep)[i]; row in rows && keep(row) && r[i] == f(row)
    ensures |Filter(rows, keep)| <= limit ==> forall row :: row in rows && keep(row) ==> f(row) in r
  {
    var matching := Filter(rows, keep);
    FilterMembers(rows, keep);
    var r := MapSeq(Take(matching, limit), f);
    assert forall i :: 0 <= i < |r| ==> matching[i] in matching;
    assert |matching| <= limit ==> forall row :: row in rows && keep(row) ==> f(row) in r by {
      if |matching| <= limit {
        forall row | row in rows && keep(row) ensures f(row) in r {
          var k :| 0 <= k < |matching| && matching[k] == row;
          assert r[k] == f(row);
        }
      }
    }
    r
  }

  /** `d` is the projection of a artist whose name matches `q`. */
  predicate ArtistHit(d: ArtistDto, artists: seq<ArtistRow>, q: string)
  {
    exists a :: a in artists && Matches(a.name, q) && d == ToArtistDto(a)
  }

  /** The artists part: at most 5 artists whose lowercased name contains
      `q`, all of them when there are no more than 5. */
  function SearchArtists(q: string, artists: seq<ArtistRow>): (r: seq<ArtistDto>)
    ensures |r| <= ArtistLimit
    ensures forall i :: 0 <= i < |r| ==> ArtistHit(r[i], artists, q)
    ensures |Filter(artists, ArtistMatches(q))| <= ArtistLimit ==>
      forall a :: a in artists && Matches(a.name, q) ==> ToArtistDto(a) in r
    ensures |Filter(artists, ArtistMatches(q))| >= ArtistLimit ==> |r| == ArtistLimit
  {
    var matching := Filter(artists, ArtistMatches(q));
    var found := FirstMatches(artists, ArtistMatches(q), ArtistLimit, ToArtistDto);
    assert forall i :: 0 <= i < |found| ==> ArtistHit(found[i], artists, q) by {
      forall i | 0 <= i < |found| ensures ArtistHit(found[i], artists, q) {
        var a := matching[i];
        assert a in artists && ArtistMatches(q)(a) && found[i] == ToArtistDto(a);
      }
    }
    found
  }

  /** `d` is the projection of a album whose title matches `q`. */
  predicate AlbumHit(d: AlbumDto, albums: seq<AlbumRow>, q: string)
  {
    exists a :: a in albums && Matches(a.title, q) && d == ToAlbumDto(a)
  }

  /** The albums part: at most 5 albums whose lowercased title contains
      `q`, all of them when there are no more than 5. */
  function SearchAlbums(q: string, albums: seq<AlbumRow>): (r: seq<AlbumDto>)
    ensures |r| <= AlbumLimit
    ensures forall i :: 0 <= i < |r| ==> AlbumHit(r[i], albums, q)
    ensures |Filter(albums, AlbumMatches(q))| <= AlbumLimit ==>
      forall a :: a in albums && Matches(a.title, q) ==> ToAlbumDto(a) in r
    ensures |Filter(albums, AlbumMatches(q))| >= AlbumLimit ==> |r| == AlbumLimit
  {
    var matching := Filter(albums, AlbumMatches(q));
    var found := FirstMatches(albums, AlbumMatches(q), AlbumLimit, ToAlbumDto);
    assert forall i :: 0 <= i < |found| ==> AlbumHit(found[i], albums, q) by {
      forall i | 0 <= i < |found| ensures AlbumHit(found[i], albums, q) {
        var a := matching[i];
        assert a in albums && AlbumMatches(q)(a) && found[i] == ToAlbumDto(a);
      }
    }
    found
  }

  /** `d` is the projection of a track whose title matches `q`. */
  predicate TrackHit(d: TrackDto, tracks: seq<TrackRow>, q: string)
  {
    exists t :: t in tracks && Matches(t.title, q) && d == ToTrackDto(t)
  }

  /** The tracks part: at most 10 tracks whose lowercased title contains
      `q`, all of them when there are no more than 10. */
  function SearchTracks(q: string, tracks: seq<TrackRow>): (r: seq<TrackDto>)
    ensures |r| <= TrackLimit
    ensures forall i :: 0 <= i < |r| ==> TrackHit(r[i], tracks, q)
    ensures |Filter(tracks, TrackMatches(q))| <= TrackLimit ==>
      forall t :: t in tracks && Matches(t.title, q) ==> ToTrackDto(t) in r
    ensures |Filter(tracks, TrackMatches(q))| >= TrackLimit ==> |r| == TrackLimit
  {
    var matching := Filter(tracks, TrackMatches(q));
    var found := FirstMatches(tracks, TrackMatches(q), TrackLimit, ToTrackDto);
    assert forall i :: 0 <= i < |found| ==> TrackHit(found[i], tracks, q) by {
      forall i | 0 <= i < |found| ensures TrackHit(found[i], tracks, q) {
        var t := matching[i];
        assert t in tracks && TrackMatches(q)(t) && found[i] == ToTrackDto(t);
      }
    }
    found
  }

  /** `Search(query)`: empty lists for a missing or blank query; otherwise
      the three parts above for the lowercased query. */
  function Search(query: Option<string>, artists: seq<ArtistRow>, albums: seq<AlbumRow>, tracks: seq<TrackRow>)
    : (r: SearchResult)
    ensures IsNullOrWhiteSpace(query) ==> r == SearchResult([], [], [])
    ensures |r.artists| <= ArtistLimit && |r.albums| <= AlbumLimit && |r.tracks| <= TrackLimit
    ensures !IsNullOrWhiteSpace(query) ==>
      && (forall i :: 0 <= i < |r.artists| ==> ArtistHit(r.artists[i], artists, Lower(query.value)))
      && (forall i :: 0 <= i < |r.albums| ==> AlbumHit(r.albums[i], albums, Lower(query.value)))
      && (forall i :: 0 <= i < |r.tracks| ==> TrackHit(r.tracks[i], tracks, Lower(query.value)))
    ensures !IsNullOrWhiteSpace(query) && |Filter(tracks, TrackMatches(Lower(query.value)))| <= TrackLimit ==>
      forall t :: t in tracks && Matches(t.title, Lower(query.value)) ==> ToTrackDto(t) in r.tracks
  {
    if IsNullOrWhiteSpace(query) then SearchResult([], [], [])
    else
      var q := Lower(query.value);
      SearchResult(SearchArtists(q, artists), SearchAlbums(q, albums), SearchTracks(q, tracks))
  }

  /** The search ignores the case of the query: lowering it first changes
      nothing. */
  lemma SearchCaseInsensitive(query: string, artists: seq<ArtistRow>, albums: seq<AlbumRow>, tracks: seq<TrackRow>)
    ensures Search(Some(query), artists, albums, tracks) == Search(Some(Lower(query)), artists, albums, tracks)
  {
    LowerIdempotent(query);
    var lowered := Lower(query);
    assert IsNullOrWhiteSpace(Some(query)) <==> IsNullOrWhiteSpace(Some(lowered)) by {
      forall i | 0 <= i < |query| ensures IsWhiteSpace(query[i]) <==> IsWhiteSpace(lowered[i]) {
        if 'A' <= query[i] <= 'Z' {
          assert !IsWhiteSpace(query[i]) && !IsWhiteSpace(lowered[i]);
        }
      }
    }
  }

  /** Enough matches fill every list to its cap. */
  lemma ManyMatchesFillTheLimits(query: string, artists: seq<ArtistRow>, albums: seq<AlbumRow>, tracks: seq<TrackRow>)
    requires !IsNullOrWhiteSpace(Some(query))
    requires |Filter(artists, ArtistMatches(Lower(query)))| >= ArtistLimit
    requires |Filter(tracks, TrackMatches(Lower(query)))| >= TrackLimit
    ensures |Search(Some(query), artists, albums, tracks).artists| == ArtistLimit
    ensures |Search(Some(query), artists, albums, tracks).tracks| == TrackLimit
  {
  }
}
