# Artist-only playlist finder: a Dafny model of the client core

This project models the logic of the Spotify auto-updater client
(`AutoUpdater` in `src/client.py`). The client finds, among the current
user's own playlists, the ones that are essentially one artist's playlist,
and keeps the largest such playlist per artist. It does this in four steps:

- **Paginator** (`_get_all_values`). It calls a page function at offsets
  `0, limit, 2·limit, …` and concatenates the items of every page. It stops
  once the offset reaches the `total` of the latest response. A page size
  above 50 (`MAX_QUERY_LIMIT`) fails. So does a null response.
- **Playlist filter** (`get_user_playlists`, `playlist_is_collaborative`,
  `playlist_is_from_user`). It keeps, in order, the fetched playlists that are
  not collaborative and are owned by the current user.
- **Classifier** (`_is_artist_only_playlist`, `get_all_playlist_items`). It
  fetches a playlist's items and counts artist credits and album names. It
  rejects playlists with fewer than 15 items, and playlists whose items all
  share one album. Otherwise it names the most-credited artist; the playlist
  is artist-only when that artist's count reaches `threshold × items`.
- **Aggregator** (`get_artist_only_playlists`). It groups the artist-only
  playlists by their artist and keeps, per artist, the playlist with the
  largest `tracks.total`.

The modules follow this structure:

- `wrappers.dfy`: `Option`, `Result` and the error kinds.
- `paginator.dfy`: a method with a `while` loop, proved against specification
  functions, and lemmas about the calls it makes.
- `counting.dfy`: the insertion-ordered `defaultdict(int)` counter, and
  Python's `max`, which keeps the first maximal element.
- `playlists.dfy`: the data, the service interface and the filter.
- `classifier.dfy`: the nested counting loops and the decision.
- `aggregator.dfy`: the two loops of `get_artist_only_playlists`.

Tie-breaks are those Python uses:

- The dominant artist is the first-inserted artist among those with the largest count.
- The aggregator keeps the earliest playlist among those with the largest total.

The remote service is a value of type `Api`:

- the current user's id;
- a page function for the user's playlists;
- a page function for a playlist's items.

A page function maps `(limit, offset)` to an optional page. Call number `k`
is made at offset `k·limit`. The loop stops after call `k` when that call gets
a null response, or a total that `k·limit + limit` reaches (`Stops`). Whether
that ever happens depends on the answers. So the model describes exactly
the runs that end: `Terminates` says some call would stop the loop, and
nothing is assumed about offsets the loop never visits. Likewise a pass over
the user's playlists only needs the item listings it reaches to end
(`Classifiable`).

The threshold compares the top artist count with the number of fetched
items, `len(track_details)` (`src/client.py:193` and `:208`), not with the
number of credits. Since every credit is counted, the credits can outnumber
the items (`EveryCreditCounted`).

## Model

| member | source | states |
|---|---|---|
| Paginator.GetAllValues | src/client.py:136-169 | The loop's result is the specification `AllValues`, and the offsets it calls are `Calls`. |
| Paginator.LimitAboveMaximumFails | src/client.py:156-157 | A page size above 50 fails with `LimitTooLarge`, and the page function is never called. |
| Paginator.PaginationOffsets | src/client.py:158-167 | In a run that ends with a page size of at most 50, there is at least one call, since `total` starts at infinity. The k-th call gets offset `k·limit`. Every call but the last was answered with a total beyond the next offset. The last was answered with nothing, or with a total the next offset reaches. |
| Paginator.PaginationResult | src/client.py:161-167 | In a run that ends with a page size of at most 50, the loop fails exactly when the last call got a null response, with `NullResponse`. Otherwise the result is the items of all responses concatenated in call order. |
| Paginator.StableTotalCallCount | src/client.py:159-166 | When every response reports the same total `t` and the page size is positive, the loop ends after `max(1, ceil(t / limit))` calls. |
| Paginator.SinglePage | src/client.py:159-169 | When the first response reports a total the page size already reaches, the loop ends after that one call and returns that page's items, whatever the service would answer at other offsets. |
| Paginator.FetchStepSome | src/client.py:162-167 | After one answered call, the collected items and offsets are a prefix of the full result. The loop continues exactly when `offset + limit < total`. |
| Paginator.FetchStepNone | src/client.py:162-164 | A null response ends the pass with `NullResponse` after that call. |
| Playlists.OwnedPlaylistsSelection | src/client.py:79-104 | The filter's result is the input at increasing positions. A position is selected exactly when its playlist is not collaborative and its owner is the current user. |
| Playlists.GetUserPlaylists | src/client.py:68-79 | The result is the filtered list of all fetched playlists, or the paginator's error. |
| Playlists.GetAllPlaylistItems | src/client.py:213-232 | The result is the paginator's outcome over the playlist's item pages, with that playlist id and field selection. |
| Counting.TallyOfCounts | src/client.py:185-201 | After counting a sequence, the counter's keys are exactly its elements, each listed once, and each key's count is its number of occurrences. |
| Counting.TallyOfKeyOrder | src/client.py:185-201 | The counter lists its keys in the order of their first occurrence. |
| Counting.TallySingleKey | src/client.py:205 | A non-empty counted sequence has exactly one key exactly when all its elements are equal. |
| Counting.TallySum | src/client.py:197-201 | The counts add up to the number of elements counted. |
| Counting.FirstArgMax | src/client.py:209 | `max(..., key=...)` gives an index holding a maximal value; every earlier index holds a strictly smaller value. |
| Classifier.CountCredits | src/client.py:197-201 | The nested loops end with the artist counter over every credit of every item, and the album counter over every item's album. |
| Classifier.IsArtistOnlyPlaylist | src/client.py:171-211 | The result is the specification `ClassifyPlaylist`. An artist-only verdict always names an artist. |
| Classifier.Decide | src/client.py:203-211 | An artist-only verdict always carries an artist. |
| Classifier.SmallPlaylistRejected | src/client.py:193-195 | Fewer than 15 fetched items give `(false, None)`, whatever the credits. |
| Classifier.SingleAlbumRejected | src/client.py:197-206 | At least 15 items that all share one album give `(false, None)`, even when one artist is credited on all of them. |
| Classifier.MixedAlbumsDecided | src/client.py:197-211 | Over two or more albums with no artist credit, classification fails. Otherwise the named artist is credited and has the largest count. Any artist first credited earlier has a strictly smaller count. The verdict is artist-only exactly when `count·den >= num·items`, and the artist is named in either case. |
| Classifier.SoleArtistAccepted | src/client.py:193-211 | At least 15 items over two or more albums, each credited to one artist `a` alone, give `(true, a)` at the default threshold. |
| Classifier.EveryCreditCounted | src/client.py:199-200 | The artist counts add up to the total number of credits over all items, not to the number of items. |
| Classifier.AlbumNames | src/client.py:201 | One album name per item, in item order. |
| Aggregator.GetArtistOnlyPlaylists | src/client.py:106-134 | The result is the specification `ArtistOnlyPlaylists`: the best playlist per artist, or the first error. |
| Aggregator.GroupArtistOnly | src/client.py:115-124 | The first loop fails with the first classification error. Otherwise it yields the groups of artist-only playlists per artist, in input order, and its key list holds exactly the map's keys. |
| Aggregator.KeepLargest | src/client.py:126-132 | The second loop replaces every group by its largest playlist. |
| Aggregator.Largest | src/client.py:129-132 | The chosen playlist belongs to the group and has the largest `tracks.total` in it. |
| Aggregator.LargestSnoc | src/client.py:129-132 | A playlist appended to a group replaces the largest only with a strictly larger total, so ties keep the earlier playlist. |
| Aggregator.AggregateKeys | src/client.py:117-124 | The result's keys are exactly the artists of the playlists classified artist-only. |
| Aggregator.AggregateWinner | src/client.py:117-132 | Each artist's entry is an artist-only playlist for that artist with the largest total among them. Every earlier such playlist has a strictly smaller total. |
| Aggregator.VerdictsFailureStays | src/client.py:122 | A classification failure aborts the whole pass with that error. |
| Aggregator.VerdictsPointwise | src/client.py:117-122 | A successful pass holds, position by position, each playlist's own classification. |
| Aggregator.VerdictsFirstFailure | src/client.py:117-122 | A failed pass fails with the error of the first playlist whose classification fails. Every playlist before it was classified successfully. |
| Aggregator.NextClassifiable | src/client.py:117-122 | Once the playlists before it are classified without failure, the pass reaches the next playlist, and that playlist's item listing ends. |

## Left out

- Client setup (`__init__`, `_setup_client`, `_assert_env_var_set`): environment files, variables and OAuth are foreign I/O. The current user's id is a given field of `Api`.
- `_get_client_scopes`: it joins a Python set in hash order; there is nothing to state beyond the four scope strings.
- Remote calls (`me`, `current_user_playlists`, `playlist_items`) are abstract page functions of `Api`. Extra keyword arguments are bound into the page function.
- `logger` and `tqdm` output: side effects only.
- The float threshold 0.9 is a positive fraction (`9/10` by default), compared as `count·den >= num·items`. Float rounding is not modelled.
- Paginator.GetAllValues: runs that never end are not modelled. With an admissible page size it requires `Terminates`, i.e. that some call would stop the loop; a run that goes on forever has no result to describe. A page size above 50 requires nothing.
- Aggregator.GetArtistOnlyPlaylists: it requires `RunEnds`. The user's playlist listing must end, and so must every item listing the classification pass reaches.
- The `ValueError` messages are not modelled; the function name in the null-response message is among them. Errors are the `Error` kinds `LimitTooLarge`, `NullResponse` and `NoArtistCredits`. The last stands for `max` over an empty counter, when no item credits any artist.
- The `track_details is None` check of `_is_artist_only_playlist` cannot fire, because the paginator returns a list or fails. It is not modelled separately.
- Aggregator.GetArtistOnlyPlaylists: its `limit` parameter is accepted and ignored, as in the source.
- Aggregator.GetArtistOnlyPlaylists: the insertion order of the returned dictionary is not modelled. The result is a map.
- Aggregator.KeepLargest overwrites entries of a fresh map rather than updating the `defaultdict` in place. The first loop and the second loop are separate methods.
- The field selection string is passed through unchanged. Its unbalanced parenthesis is not checked, since the service interprets it.
- `src/utils.py` (JSON pretty-printing) and `src/main.py` (the entry point) are not part of this model.
