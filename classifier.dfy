/**
 * The artist-only classifier (`_is_artist_only_playlist`): count the artist
 * credits and the albums over a playlist's fetched items, reject small and
 * single-album playlists, and compare the top artist count with the threshold.
 */
module Classifier {
  import opened Wrappers
  import opened Paginator
  import opened Counting
  import opened Playlists

  /** Playlists with fewer fetched items than this are never artist-only. */
  const MinTracks := 15

  datatype Fraction = Fraction(num: int, den: int)

  /** The dominance threshold as a fraction with a positive denominator. */
  type Threshold = f: Fraction | f.den > 0 witness Fraction(9, 10)

  /** The default threshold 0.9. */
  const DefaultThreshold: Threshold := Fraction(9, 10)

  /** `(is_artist_only, artist)` as the classifier returns it. */
  datatype Verdict = Verdict(isArtistOnly: bool, artist: Option<string>)

  /** Every artist credit of every item, in item order. */
  function ArtistCredits(ts: seq<TrackItem>): seq<string> {
    if ts == [] then [] else ArtistCredits(ts[..|ts| - 1]) + ts[|ts| - 1].artists
  }

  /** The album name of every item, in item order. */
  function AlbumNames(ts: seq<TrackItem>): (r: seq<string>)
    ensures |r| == |ts|
    ensures forall i :: 0 <= i < |ts| ==> r[i] == ts[i].album
  {
    if ts == [] then [] else AlbumNames(ts[..|ts| - 1]) + [ts[|ts| - 1].album]
  }

  /**
   * The decision taken once both counters are filled, for a playlist of `total`
   * fetched items. An artist-only verdict always names its artist.
   */
  function Decide(total: int, artists: Tally, albums: Tally, threshold: Threshold): (r: Result<Verdict, Error>)
    ensures r.Success? && r.value.isArtistOnly ==> r.value.artist.Some?
  {
    if |albums.keys| == 1 then Success(Verdict(false, None))
    else if artists.keys == [] then Failure(NoArtistCredits)
    else
      var k := FirstArgMax(artists.Scores());
      var top := artists.Scores()[k];
      Success(Verdict(top * threshold.den >= threshold.num * total, Some(artists.keys[k])))
  }

  /** The classifier's answer for the fetched items `tracks`. */
  ghost function Classification(tracks: seq<TrackItem>, threshold: Threshold): Result<Verdict, Error> {
    var total := |tracks|;
    if total == 0 || total < MinTracks then Success(Verdict(false, None))
    else Decide(total, TallyOf(ArtistCredits(tracks)), TallyOf(AlbumNames(tracks)), threshold)
  }

  /** Listing the playlist's items with the default fields ends. */
  ghost predicate ItemsEnd(api: Api, playlist: Playlist) {
    Terminates(ItemsFor(api, playlist.id, DefaultFields), MaxQueryLimit)
  }

  /** The classifier's answer for a playlist: fetch its items, then classify them. */
  ghost function ClassifyPlaylist(api: Api, playlist: Playlist, threshold: Threshold): Result<Verdict, Error>
    requires ItemsEnd(api, playlist)
  {
    match AllValues(ItemsFor(api, playlist.id, DefaultFields), MaxQueryLimit)
    case Failure(e) => Failure(e)
    case Success(tracks) => Classification(tracks, threshold)
  }

  /** The two nested counting loops: artist credits and album names. */
  method CountCredits(tracks: seq<TrackItem>) returns (artists: Tally, albums: Tally)
    ensures artists == TallyOf(ArtistCredits(tracks))
    ensures albums == TallyOf(AlbumNames(tracks))
  {
    artists, albums := EmptyTally, EmptyTally;
    var i := 0;
    while i < |tracks|
      invariant 0 <= i <= |tracks|
      invariant artists == TallyOf(ArtistCredits(tracks[..i]))
      invariant albums == TallyOf(AlbumNames(tracks[..i]))
    {
      var track := tracks[i];
      ghost var counted := ArtistCredits(tracks[..i]);
      var j := 0;
      assert counted + track.artists[..0] == counted;
      while j < |track.artists|
        invariant 0 <= j <= |track.artists|
        invariant artists == TallyOf(counted + track.artists[..j])
      {
        TallyExtend(counted, track.artists, j);
        artists := artists.Add(track.artists[j]);
        j := j + 1;
      }
      TallyOfSnoc(AlbumNames(tracks[..i]), track.album);
      albums := albums.Add(track.album);
      CreditsStep(tracks, i);
      assert track.artists[..j] == track.artists;
      i := i + 1;
    }
    assert tracks[..i] == tracks;
  }

  lemma TallyExtend(counted: seq<string>, xs: seq<string>, j: int)
    requires 0 <= j < |xs|
    ensures TallyOf(counted + xs[..j + 1]) == TallyOf(counted + xs[..j]).Add(xs[j])
  {
    assert counted + xs[..j + 1] == (counted + xs[..j]) + [xs[j]];
    TallyOfSnoc(counted + xs[..j], xs[j]);
  }

  lemma CreditsStep(tracks: seq<TrackItem>, i: int)
    requires 0 <= i < |tracks|
    ensures ArtistCredits(tracks[..i + 1]) == ArtistCredits(tracks[..i]) + tracks[i].artists
    ensures AlbumNames(tracks[..i + 1]) == AlbumNames(tracks[..i]) + [tracks[i].album]
  {
    assert tracks[..i + 1][..i] == tracks[..i];
  }

  /** `_is_artist_only_playlist(playlist, threshold)`. */
  method IsArtistOnlyPlaylist(api: Api, playlist: Playlist, threshold: Threshold)
    returns (r: Result<Verdict, Error>)
    requires ItemsEnd(api, playlist)
    ensures r == ClassifyPlaylist(api, playlist, threshold)
    ensures r.Success? && r.value.isArtistOnly ==> r.value.artist.Some?
  {
    var fetched := GetAllPlaylistItems(api, playlist.id, DefaultFields);
    if fetched.Failure? {
      return Failure(fetched.error);
    }
    var tracks := fetched.value;
    var total := |tracks|;
    if total == 0 || total < MinTracks {
      return Success(Verdict(false, None));
    }
    var artists, albums := CountCredits(tracks);
    r := Decide(total, artists, albums, threshold);
  }

  /** Fewer than 15 fetched items: never artist-only, whatever the credits. */
  lemma SmallPlaylistRejected(tracks: seq<TrackItem>, threshold: Threshold)
    requires |tracks| < MinTracks
    ensures Classification(tracks, threshold) == Success(Verdict(false, None))
  {
  }

  /** At least 15 items all from one album: rejected even when one artist credits all. */
  lemma SingleAlbumRejected(tracks: seq<TrackItem>, threshold: Threshold)
    requires |tracks| >= MinTracks
    requires forall i :: 0 <= i < |tracks| ==> tracks[i].album == tracks[0].album
    ensures Classification(tracks, threshold) == Success(Verdict(false, None))
  {
    TallySingleKey(AlbumNames(tracks));
  }

  /**
   * At least 15 items over two or more albums: with no artist credit at all the
   * classifier fails; otherwise it names the credited artist with the largest
   * count whose first credit comes earliest among those, and it is artist-only
   * exactly when that count reaches the threshold times the number of items.
   */
  lemma MixedAlbumsDecided(tracks: seq<TrackItem>, threshold: Threshold)
    requires |tracks| >= MinTracks
    requires exists i :: 0 <= i < |tracks| && tracks[i].album != tracks[0].album
    ensures var credits := ArtistCredits(tracks);
      var r := Classification(tracks, threshold);
      (credits == [] ==> r == Failure(NoArtistCredits))
      && (credits != [] ==>
            r.Success? && r.value.artist.Some? && r.value.artist.value in credits
            && (forall b :: b in credits ==> Count(credits, b) <= Count(credits, r.value.artist.value))
            && (forall b :: b in credits && IndexOf(credits, b) < IndexOf(credits, r.value.artist.value) ==>
                  Count(credits, b) < Count(credits, r.value.artist.value))
            && (r.value.isArtistOnly <==>
                  Count(credits, r.value.artist.value) * threshold.den >= threshold.num * |tracks|))
  {
    var credits := ArtistCredits(tracks);
    var albums := AlbumNames(tracks);
    var t := TallyOf(credits);
    TallySingleKey(albums);
    assert |TallyOf(albums).keys| != 1;
    TallyOfCounts(credits);
    if credits != [] {
      assert credits[0] in credits;
      TallyOfKeyOrder(credits);
      var scores := t.Scores();
      var k := FirstArgMax(scores);
      var a := t.keys[k];
      assert a in t.keys;
      forall b | b in credits
        ensures Count(credits, b) <= Count(credits, a)
        ensures IndexOf(credits, b) < IndexOf(credits, a) ==> Count(credits, b) < Count(credits, a)
      {
        assert b in t.keys;
        var j :| 0 <= j < |t.keys| && t.keys[j] == b;
        assert scores[j] == t.Get(b);
        if IndexOf(credits, b) < IndexOf(credits, a) {
          assert j != k;
          assert !(k < j);
        }
      }
    }
  }

  /**
   * At least 15 items over two or more albums, each credited to artist `a` alone:
   * the playlist is artist-only for `a`.
   */
  lemma SoleArtistAccepted(tracks: seq<TrackItem>, a: string)
    requires |tracks| >= MinTracks
    requires exists i :: 0 <= i < |tracks| && tracks[i].album != tracks[0].album
    requires forall i :: 0 <= i < |tracks| ==> tracks[i].artists == [a]
    ensures Classification(tracks, DefaultThreshold) == Success(Verdict(true, Some(a)))
  {
    var credits := ArtistCredits(tracks);
    SoleArtistCredits(tracks, a);
    assert credits[0] in credits;
    MixedAlbumsDecided(tracks, DefaultThreshold);
    ConstantCount(credits, a);
  }

  lemma {:induction false} SoleArtistCredits(ts: seq<TrackItem>, a: string)
    requires forall i :: 0 <= i < |ts| ==> ts[i].artists == [a]
    ensures |ArtistCredits(ts)| == |ts|
    ensures forall i :: 0 <= i < |ts| ==> ArtistCredits(ts)[i] == a
  {
    if ts != [] {
      SoleArtistCredits(ts[..|ts| - 1], a);
    }
  }

  lemma {:induction false} ConstantCount(s: seq<string>, a: string)
    requires forall i :: 0 <= i < |s| ==> s[i] == a
    ensures Count(s, a) == |s|
    ensures forall b :: b in s ==> b == a
  {
    if s != [] {
      ConstantCount(s[..|s| - 1], a);
    }
  }

  /** Every credit is counted: the artist counts add up to the number of credits. */
  lemma {:induction false} EveryCreditCounted(tracks: seq<TrackItem>)
    ensures var t := TallyOf(ArtistCredits(tracks));
      SumOf(t.keys, t) == CreditTotal(tracks)
  {
    TallySum(ArtistCredits(tracks));
    CreditsLength(tracks);
  }

  /** Number of artist credits over all items. */
  function CreditTotal(ts: seq<TrackItem>): nat {
    if ts == [] then 0 else CreditTotal(ts[..|ts| - 1]) + |ts[|ts| - 1].artists|
  }

  lemma {:induction false} CreditsLength(ts: seq<TrackItem>)
    ensures |ArtistCredits(ts)| == CreditTotal(ts)
  {
    if ts != [] {
      CreditsLength(ts[..|ts| - 1]);
    }
  }
}
