/**
 * The client's data and its view of the service: playlists, track items, the
 * page functions it calls, and the filter that keeps the user's own playlists.
 */
module Playlists {
  import opened Wrappers
  import opened Paginator

  /** The fields of a playlist the client reads: `id`, `owner.id`, `collaborative`, `tracks.total`. */
  datatype Playlist = Playlist(id: string, ownerId: string, collaborative: bool, tracksTotal: int)

  /** A playlist item: the names of the track's credited artists and its album name. */
  datatype TrackItem = TrackItem(artists: seq<string>, album: string)

  /**
   * The remote service as the client sees it: the current user's id (from `me()`),
   * the page function listing the user's playlists, and the one listing a
   * playlist's items, taking `(playlist_id, fields, limit, offset)`.
   */
  datatype Api = Api(
    currentUserId: string,
    userPlaylists: PageFn<Playlist>,
    playlistItems: (string, string, int, int) -> Option<Page<TrackItem>>)

  /** The fields requested for playlist items, as the client writes them. */
  const DefaultFields := "total,items(track(artists(name),album.name)"

  /** `playlist_items` with the playlist id and fields bound. */
  function ItemsFor(api: Api, playlistId: string, fields: string): PageFn<TrackItem> {
    (limit, offset) => api.playlistItems(playlistId, fields, limit, offset)
  }

  /** Listing the user's playlists at the default page size ends. */
  ghost predicate PlaylistsEnd(api: Api) {
    Terminates(api.userPlaylists, MaxQueryLimit)
  }

  predicate IsCollaborative(p: Playlist) {
    p.collaborative
  }

  predicate IsFromUser(p: Playlist, userId: string) {
    p.ownerId == userId
  }

  predicate Kept(p: Playlist, userId: string) {
    !IsCollaborative(p) && IsFromUser(p, userId)
  }

  /** The list comprehension of `get_user_playlists`. */
  function OwnedPlaylists(ps: seq<Playlist>, userId: string): seq<Playlist> {
    if ps == [] then []
    else
      var kept := OwnedPlaylists(ps[..|ps| - 1], userId);
      if Kept(ps[|ps| - 1], userId) then kept + [ps[|ps| - 1]] else kept
  }

  /**
   * The filter keeps exactly the non-collaborative playlists owned by the user:
   * the result is `ps` at the increasing positions `idx`, and a position is in
   * `idx` exactly when its playlist is kept.
   */
  lemma {:induction false} OwnedPlaylistsSelection(ps: seq<Playlist>, userId: string) returns (idx: seq<int>)
    ensures var r := OwnedPlaylists(ps, userId);
      |idx| == |r|
      && (forall k :: 0 <= k < |idx| ==> 0 <= idx[k] < |ps| && r[k] == ps[idx[k]])
      && (forall k, l :: 0 <= k < l < |idx| ==> idx[k] < idx[l])
      && (forall i :: 0 <= i < |ps| ==> (Kept(ps[i], userId) <==> i in idx))
  {
    if ps == [] {
      idx := [];
    } else {
      var n := |ps| - 1;
      var prefix := ps[..n];
      var prev := OwnedPlaylistsSelection(prefix, userId);
      assert forall k :: 0 <= k < |prev| ==> prev[k] < n;
      if Kept(ps[n], userId) {
        idx := prev + [n];
      } else {
        idx := prev;
      }
      forall i | 0 <= i < n ensures Kept(ps[i], userId) <==> i in idx {
        assert ps[i] == prefix[i];
      }
    }
  }

  /** `get_user_playlists`: every playlist of the user, then the filter. */
  ghost function UserPlaylists(api: Api): Result<seq<Playlist>, Error>
    requires PlaylistsEnd(api)
  {
    match AllValues(api.userPlaylists, MaxQueryLimit)
    case Failure(e) => Failure(e)
    case Success(ps) => Success(OwnedPlaylists(ps, api.currentUserId))
  }

  method GetUserPlaylists(api: Api) returns (r: Result<seq<Playlist>, Error>)
    requires PlaylistsEnd(api)
    ensures r == UserPlaylists(api)
  {
    var fetched;
    ghost var calls;
    fetched, calls := GetAllValues(api.userPlaylists, MaxQueryLimit);
    if fetched.Failure? {
      return Failure(fetched.error);
    }
    r := Success(OwnedPlaylists(fetched.value, api.currentUserId));
  }

  /** `get_all_playlist_items`: the paginator over one playlist's items. */
  method GetAllPlaylistItems(api: Api, playlistId: string, fields: string)
    returns (r: Result<seq<TrackItem>, Error>)
    requires Terminates(ItemsFor(api, playlistId, fields), MaxQueryLimit)
    ensures r == AllValues(ItemsFor(api, playlistId, fields), MaxQueryLimit)
  {
    ghost var calls;
    r, calls := GetAllValues(ItemsFor(api, playlistId, fields), MaxQueryLimit);
  }
}
