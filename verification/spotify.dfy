/** The result shaping of app/services/spotify.py. The Spotify client's answers
    (a search page, a track lookup) are inputs here; what is modelled is how
    the service clamps the search limit and turns each raw track into the flat
    track summary it returns. */
module SpotifyService {
  import opened Wrappers

  datatype RawArtist = RawArtist(name: string)

  datatype RawImage = RawImage(url: string, width: int)

  datatype RawAlbum = RawAlbum(name: string, images: seq<RawImage>, releaseDate: string)

  /** A track object as the Spotify client returns it (the fields the service reads). */
  datatype RawTrack = RawTrack(
    id: string,
    name: string,
    artists: seq<RawArtist>,
    album: RawAlbum,
    previewUrl: Option<string>,
    externalUrl: string,
    durationMs: int,
    popularity: int)

  /** The simplified track dictionary; releaseDate is present only in the
      answer of a single-track lookup. */
  datatype TrackSummary = TrackSummary(
    id: string,
    name: string,
    artist: string,
    allArtists: string,
    album: string,
    albumImage: Option<string>,
    previewUrl: Option<string>,
    externalUrl: string,
    durationMs: int,
    popularity: int,
    releaseDate: Option<string>)

  /** The limit search_tracks uses when the caller gives none. */
  const DefaultSearchLimit: int := 20
  const SearchLimitCap: int := 50
  const UnknownArtist: string := "Unknown Artist"
  const ArtistSeparator: string := ", "
  /** The smallest width get_track accepts as a medium-size image. */
  const MediumImageWidth: int := 300

  /** The limit actually sent to the search call: the requested one (20 when
      none is given), capped at 50. */
  function EffectiveLimit(limit: int := DefaultSearchLimit): (r: int)
    ensures r <= SearchLimitCap
    ensures r == limit <==> limit <= SearchLimitCap
    ensures limit >= SearchLimitCap ==> r == SearchLimitCap
  {
    if limit <= SearchLimitCap then limit else SearchLimitCap
  }

  // ---------------------------------------------------------------------------
  // Artist names

  /** The primary artist: the first listed, or a placeholder for an empty list. */
  function PrimaryArtistName(artists: seq<RawArtist>): (name: string)
  {
    if artists != [] then artists[0].name else UnknownArtist
  }

  function ArtistNames(artists: seq<RawArtist>): (names: seq<string>)
    ensures |names| == |artists|
    ensures forall i :: 0 <= i < |artists| ==> names[i] == artists[i].name
  {
    seq(|artists|, i requires 0 <= i < |artists| => artists[i].name)
  }

  /** Python's str.join: the parts with sep between consecutive ones. */
  function Join(parts: seq<string>, sep: string): (j: string)
  {
    if parts == [] then ""
    else if |parts| == 1 then parts[0]
    else parts[0] + sep + Join(parts[1..], sep)
  }

  /** All artist names, in order, separated by ", ". */
  function AllArtists(artists: seq<RawArtist>): (names: string)
  {
    Join(ArtistNames(artists), ArtistSeparator)
  }

  /** Joining one more part appends the separator and that part: the parts
      appear in list order. */
  lemma {:induction false} JoinSnoc(parts: seq<string>, x: string, sep: string)
    requires parts != []
    ensures Join(parts + [x], sep) == Join(parts, sep) + sep + x
    decreases |parts|
  {
    if |parts| == 1 {
      assert parts + [x] == [parts[0], x];
      assert [parts[0], x][1..] == [x];
    } else {
      assert (parts + [x])[1..] == parts[1..] + [x];
      JoinSnoc(parts[1..], x, sep);
    }
  }

  function TotalLength(parts: seq<string>): (n: nat)
  {
    if parts == [] then 0 else |parts[0]| + TotalLength(parts[1..])
  }

  /** The length of the joined string: the parts' total length plus one
      separator length between each two consecutive parts. */
  lemma {:induction false} JoinLength(parts: seq<string>, sep: string)
    ensures |Join(parts, sep)| == TotalLength(parts) + (if parts == [] then 0 else |sep| * (|parts| - 1))
    decreases |parts|
  {
    if |parts| > 1 {
      JoinLength(parts[1..], sep);
    }
  }

  /** The primary artist leads the joined list, and an empty artist list gives
      the placeholder and an empty join. */
  lemma PrimaryArtistLeadsAllArtists(artists: seq<RawArtist>)
    ensures artists == [] ==> PrimaryArtistName(artists) == UnknownArtist && AllArtists(artists) == ""
    ensures artists != [] ==> PrimaryArtistName(artists) <= AllArtists(artists)
  {
  }

  // ---------------------------------------------------------------------------
  // Album image choice

  /** The index a stable sort by width brings to the front: the first image of
      least width. */
  function SmallestImageIndex(images: seq<RawImage>): (k: nat)
    requires images != []
    ensures k < |images|
    ensures forall j :: 0 <= j < |images| ==> images[k].width <= images[j].width
    ensures forall j :: 0 <= j < k ==> images[j].width > images[k].width
    decreases |images|
  {
    if |images| == 1 then 0
    else
      var rest := SmallestImageIndex(images[1..]);
      if images[0].width <= images[rest + 1].width then 0 else rest + 1
  }

  /** search_tracks' album image: none for an album without images, otherwise
      the url of the first image of least width. */
  function SearchAlbumImage(images: seq<RawImage>): (url: Option<string>)
    ensures url.None? <==> images == []
    ensures url.Some? ==> exists k :: 0 <= k < |images| && url.value == images[k].url
                            && (forall j :: 0 <= j < |images| ==> images[k].width <= images[j].width)
                            && (forall j :: 0 <= j < k ==> images[j].width > images[k].width)
  {
    if images == [] then None else Some(images[SmallestImageIndex(images)].url)
  }

  /** The index of the first image at least MediumImageWidth wide (|images| if none). */
  function FirstWideIndex(images: seq<RawImage>): (k: nat)
    ensures k <= |images|
    ensures k < |images| ==> images[k].width >= MediumImageWidth
    ensures forall j :: 0 <= j < k ==> images[j].width < MediumImageWidth
    decreases |images|
  {
    if images == [] then 0
    else if images[0].width >= MediumImageWidth then 0
    else 1 + FirstWideIndex(images[1..])
  }

  /** get_track's album image: none without images; the first medium-size
      image's url; the first image's url when no image is medium-size or the
      chosen url is empty (a falsy string in the source). */
  method DetailAlbumImage(images: seq<RawImage>) returns (url: Option<string>)
    ensures images == [] ==> url == None
    ensures images != [] ==>
      var k := FirstWideIndex(images);
      url == Some(if k < |images| && images[k].url != "" then images[k].url else images[0].url)
  {
    url := None;
    if images != [] {
      var i := 0;
      while i < |images|
        invariant i <= |images|
        invariant forall j :: 0 <= j < i ==> images[j].width < MediumImageWidth
        invariant url == None
      {
        if images[i].width >= MediumImageWidth {
          url := Some(images[i].url);
          break;
        }
        i := i + 1;
      }
      assert url.Some? ==> i == FirstWideIndex(images) && url.value == images[i].url;
      assert url.None? ==> FirstWideIndex(images) == |images|;
      if url == None || url == Some("") {
        url := Some(images[0].url);
      }
    }
  }

  // ---------------------------------------------------------------------------
  // Track simplification

  /** The flat dictionary both service calls build from a raw track. */
  function TrackEntry(t: RawTrack, albumImage: Option<string>, releaseDate: Option<string>): (e: TrackSummary)
  {
    TrackSummary(t.id, t.name, PrimaryArtistName(t.artists), AllArtists(t.artists), t.album.name,
                 albumImage, t.previewUrl, t.externalUrl, t.durationMs, t.popularity, releaseDate)
  }

  /** One entry of a search answer. */
  function SearchEntry(t: RawTrack): (e: TrackSummary)
  {
    TrackEntry(t, SearchAlbumImage(t.album.images), None)
  }

  /** A search entry copies the track's own fields unchanged, names the primary
      artist and all artists, has no release date, and has an album image
      exactly when the album has images. */
  lemma SearchEntryFields(t: RawTrack)
    ensures var e := SearchEntry(t);
      && e.id == t.id && e.name == t.name && e.album == t.album.name
      && e.previewUrl == t.previewUrl && e.externalUrl == t.externalUrl
      && e.durationMs == t.durationMs && e.popularity == t.popularity
      && e.artist == PrimaryArtistName(t.artists) && e.allArtists == AllArtists(t.artists)
      && e.releaseDate.None?
      && (e.albumImage.Some? <==> t.album.images != [])
  {
  }

  /** The loop of search_tracks over the items of a search answer: one entry
      per track, in the answer's order. */
  method SimplifySearchResults(tracks: seq<RawTrack>) returns (simplified: seq<TrackSummary>)
    ensures |simplified| == |tracks|
    ensures forall i :: 0 <= i < |tracks| ==> simplified[i] == SearchEntry(tracks[i])
  {
    simplified := [];
    for i := 0 to |tracks|
      invariant |simplified| == i
      invariant forall j :: 0 <= j < i ==> simplified[j] == SearchEntry(tracks[j])
    {
      simplified := simplified + [SearchEntry(tracks[i])];
    }
  }

  /** get_track on the client's lookup answer: nothing for a missing track,
      otherwise the track's entry with the medium-size album image and the
      album's release date. */
  method GetTrack(track: Option<RawTrack>) returns (info: Option<TrackSummary>)
    ensures track.None? <==> info.None?
    ensures track.Some? ==>
      var t := track.value;
      var images := t.album.images;
      && info.value.albumImage.None? == (images == [])
      && info.value == TrackEntry(t, info.value.albumImage, Some(t.album.releaseDate))
      && (images != [] ==>
            var k := FirstWideIndex(images);
            info.value.albumImage.value == if k < |images| && images[k].url != "" then images[k].url else images[0].url)
  {
    if track.None? {
      return None;
    }
    var t := track.value;
    var albumImage := DetailAlbumImage(t.album.images);
    info := Some(TrackEntry(t, albumImage, Some(t.album.releaseDate)));
  }
}
