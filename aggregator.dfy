/**
 * `get_artist_only_playlists`: classify every playlist of the user, group the
 * artist-only ones by their artist, then keep the largest playlist of each group.
 */
module Aggregator {
  import opened Wrappers
  import opened Counting
  import opened Playlists
  import opened Classifier

  /** The verdict says "artist-only, for artist `a`". */
  predicate Accepts(v: Verdict, a: string) {
    v.isArtistOnly && v.artist == Some(a)
  }

  /**
   * Every playlist the classification pass reaches can be classified: its item
   * listing ends whenever the playlists before it were classified without failure.
   */
  ghost predicate Classifiable(api: Api, ps: seq<Playlist>)
    decreases |ps|, 0
  {
    ps == [] ||
    (Classifiable(api, ps[..|ps| - 1])
     && (Verdicts(api, ps[..|ps| - 1]).Success? ==> ItemsEnd(api, ps[|ps| - 1])))
  }

  /** The verdicts for the playlists `ps`, in order; the first failure is the result. */
  ghost function Verdicts(api: Api, ps: seq<Playlist>): (r: Result<seq<Verdict>, Error>)
    requires Classifiable(api, ps)
    ensures r.Success? ==> |r.value| == |ps|
    decreases |ps|, 1
  {
    if ps == [] then Success([])
    else
      match Verdicts(api, ps[..|ps| - 1])
      case Failure(e) => Failure(e)
      case Success(vs) =>
        match ClassifyPlaylist(api, ps[|ps| - 1], DefaultThreshold)
        case Failure(e) => Failure(e)
        case Success(v) => Success(vs + [v])
  }

  /** `artist_only_playlists[artist].append(p)` when the verdict is artist-only. */
  function Append(g: map<string, seq<Playlist>>, p: Playlist, v: Verdict): map<string, seq<Playlist>> {
    if v.isArtistOnly && v.artist.Some? then
      var a := v.artist.value;
      g[a := (if a in g then g[a] else []) + [p]]
    else g
  }

  /** The `defaultdict(list)` after the first loop: accepted playlists per artist, in order. */
  ghost function Groups(ps: seq<Playlist>, vs: seq<Verdict>): (g: map<string, seq<Playlist>>)
    requires |ps| == |vs|
    ensures forall a :: a in g ==> |g[a]| > 0
  {
    if ps == [] then map[]
    else Append(Groups(ps[..|ps| - 1], vs[..|vs| - 1]), ps[|ps| - 1], vs[|vs| - 1])
  }

  function Totals(group: seq<Playlist>): (r: seq<int>)
    ensures |r| == |group|
    ensures forall i :: 0 <= i < |group| ==> r[i] == group[i].tracksTotal
  {
    seq(|group|, i requires 0 <= i < |group| => group[i].tracksTotal)
  }

  /** `max(group, key=lambda p: p["tracks"]["total"])`: the first playlist with the largest total. */
  function Largest(group: seq<Playlist>): (p: Playlist)
    requires |group| > 0
    ensures p in group
    ensures forall q :: q in group ==> q.tracksTotal <= p.tracksTotal
  {
    group[FirstArgMax(Totals(group))]
  }

  /** The second loop: each group replaced by its largest playlist. */
  ghost function BestPerArtist(groups: map<string, seq<Playlist>>): map<string, Playlist>
    requires forall a :: a in groups ==> |groups[a]| > 0
  {
    map a | a in groups :: Largest(groups[a])
  }

  /** Fetching the user's playlists ends, and so does every item listing the pass reaches. */
  ghost predicate RunEnds(api: Api) {
    PlaylistsEnd(api) && (UserPlaylists(api).Success? ==> Classifiable(api, UserPlaylists(api).value))
  }

  /** The outcome of `get_artist_only_playlists`. */
  ghost function ArtistOnlyPlaylists(api: Api): Result<map<string, Playlist>, Error>
    requires RunEnds(api)
  {
    match UserPlaylists(api)
    case Failure(e) => Failure(e)
    case Success(ps) =>
      match Verdicts(api, ps)
      case Failure(e) => Failure(e)
      case Success(vs) => Success(BestPerArtist(Groups(ps, vs)))
  }

  /** `get_artist_only_playlists(limit)`; `limit` is not used, as in the client. */
  method GetArtistOnlyPlaylists(api: Api, limit: int)
    returns (r: Result<map<string, Playlist>, Error>)
    requires RunEnds(api)
    ensures r == ArtistOnlyPlaylists(api)
  {
    var fetched := GetUserPlaylists(api);
    if fetched.Failure? {
      return Failure(fetched.error);
    }
    var grouped, artists := GroupArtistOnly(api, fetched.value);
    if grouped.Failure? {
      return Failure(grouped.error);
    }
    var best := KeepLargest(grouped.value, artists);
    r := Success(best);
  }

  /**
   * The first loop: classify each playlist in turn and append the artist-only
   * ones to their artist's list; `artists` lists the keys in insertion order.
   */
  method GroupArtistOnly(api: Api, playlists: seq<Playlist>)
    returns (r: Result<map<string, seq<Playlist>>, Error>, artists: seq<string>)
    requires Classifiable(api, playlists)
    ensures var vs := Verdicts(api, playlists);
      && (vs.Failure? ==> r == Failure(vs.error))
      && (vs.Success? ==> r == Success(Groups(playlists, vs.value)))
    ensures r.Success? ==> forall a :: a in r.value <==> a in artists
  {
    var groups: map<string, seq<Playlist>> := map[];
    artists := [];
    ghost var verdicts: seq<Verdict> := [];
    var i := 0;
    while i < |playlists|
      invariant 0 <= i <= |playlists|
      invariant ClassifiedSoFar(api, playlists, i, verdicts)
      invariant |verdicts| == i
      invariant groups == Groups(playlists[..i], verdicts)
      invariant forall a :: a in groups <==> a in artists
    {
      var p := playlists[i];
      NextClassifiable(api, playlists, i);
      var verdict := IsArtistOnlyPlaylist(api, p, DefaultThreshold);
      VerdictsStep(api, playlists, i, verdicts, verdict);
      if verdict.Failure? {
        return Failure(verdict.error), artists;
      }
      var v := verdict.value;
      GroupsSnoc(playlists[..i], verdicts, p, v);
      ghost var next := Append(groups, p, v);
      if v.isArtistOnly {
        var a := v.artist.value;
        if a in groups {
          groups := groups[a := groups[a] + [p]];
        } else {
          assert [] + [p] == [p];
          groups := groups[a := [p]];
          artists := artists + [a];
        }
      }
      assert groups == next;
      verdicts := verdicts + [v];
      i := i + 1;
    }
    assert playlists[..i] == playlists;
    assert Verdicts(api, playlists) == Success(verdicts);
    r := Success(groups);
  }

  /** The second loop: each artist's list replaced by its largest playlist. */
  method KeepLargest(groups: map<string, seq<Playlist>>, artists: seq<string>) returns (best: map<string, Playlist>)
    requires forall a :: a in groups ==> |groups[a]| > 0
    requires forall a :: a in groups <==> a in artists
    ensures best == BestPerArtist(groups)
  {
    best := map[];
    var j := 0;
    while j < |artists|
      invariant 0 <= j <= |artists|
      invariant forall a :: a in best <==> a in artists[..j]
      invariant forall a :: a in best ==> a in groups && best[a] == Largest(groups[a])
    {
      assert artists[..j + 1] == artists[..j] + [artists[j]];
      best := best[artists[j] := Largest(groups[artists[j]])];
      j := j + 1;
    }
    assert artists[..j] == artists;
  }

  lemma TakeOneMore<T>(s: seq<T>, i: int)
    requires 0 <= i < |s|
    ensures s[..i + 1] == s[..i] + [s[i]]
  {
  }

  /** The first `i` playlists have been classified, with verdicts `vs`. */
  ghost predicate ClassifiedSoFar(api: Api, ps: seq<Playlist>, i: int, vs: seq<Verdict>) {
    0 <= i <= |ps| && Classifiable(api, ps[..i]) && Verdicts(api, ps[..i]) == Success(vs)
  }

  /** Every prefix of a classifiable sequence is classifiable. */
  lemma {:induction false} ClassifiablePrefix(api: Api, ps: seq<Playlist>, k: int)
    requires Classifiable(api, ps)
    requires 0 <= k <= |ps|
    ensures Classifiable(api, ps[..k])
    decreases |ps| - k
  {
    if k < |ps| {
      var n := |ps| - 1;
      assert ps[..n][..k] == ps[..k];
      ClassifiablePrefix(api, ps[..n], k);
    } else {
      assert ps[..k] == ps;
    }
  }

  /** The pass reaches playlist `i` only when its item listing ends. */
  lemma NextClassifiable(api: Api, ps: seq<Playlist>, i: int)
    requires Classifiable(api, ps)
    requires 0 <= i < |ps|
    requires Classifiable(api, ps[..i]) && Verdicts(api, ps[..i]).Success?
    ensures ItemsEnd(api, ps[i])
  {
    ClassifiablePrefix(api, ps, i + 1);
    assert ps[..i + 1][..i] == ps[..i];
  }

  /** One more classification: its failure ends the pass, its verdict extends the list. */
  lemma VerdictsStep(api: Api, ps: seq<Playlist>, i: int, vs: seq<Verdict>, c: Result<Verdict, Error>)
    requires Classifiable(api, ps)
    requires i < |ps|
    requires ClassifiedSoFar(api, ps, i, vs)
    requires ItemsEnd(api, ps[i])
    requires c == ClassifyPlaylist(api, ps[i], DefaultThreshold)
    ensures ps[..i + 1] == ps[..i] + [ps[i]]
    ensures c.Failure? ==> Verdicts(api, ps) == Failure(c.error)
    ensures c.Success? ==> ClassifiedSoFar(api, ps, i + 1, vs + [c.value])
  {
    TakeOneMore(ps, i);
    PrefixStep(api, ps[..i], ps[i]);
    if c.Failure? {
      ClassifiablePrefix(api, ps, i + 1);
      VerdictsFailureStays(api, ps, i + 1);
    }
  }

  lemma PrefixStep(api: Api, ps: seq<Playlist>, p: Playlist)
    requires Classifiable(api, ps)
    requires Verdicts(api, ps).Success? ==> ItemsEnd(api, p)
    ensures Classifiable(api, ps + [p])
    ensures Verdicts(api, ps + [p]) ==
      match Verdicts(api, ps)
      case Failure(e) => Failure(e)
      case Success(vs) =>
        match ClassifyPlaylist(api, p, DefaultThreshold)
        case Failure(e) => Failure(e)
        case Success(v) => Success(vs + [v])
  {
    assert (ps + [p])[..|ps|] == ps;
  }

  lemma GroupsSnoc(ps: seq<Playlist>, vs: seq<Verdict>, p: Playlist, v: Verdict)
    requires |ps| == |vs|
    ensures Groups(ps + [p], vs + [v]) == Append(Groups(ps, vs), p, v)
  {
    assert (ps + [p])[..|ps|] == ps;
    assert (vs + [v])[..|vs|] == vs;
  }

  /** The largest of a group grown by one playlist at its end. */
  lemma LargestSnoc(group: seq<Playlist>, p: Playlist)
    requires |group| > 0
    ensures Largest(group + [p]) == if p.tracksTotal > Largest(group).tracksTotal then p else Largest(group)
  {
    assert Totals(group + [p])[..|group|] == Totals(group);
  }

  /** Playlist `i` is the first of the largest playlists accepted for artist `a`. */
  ghost predicate IsWinner(ps: seq<Playlist>, vs: seq<Verdict>, a: string, i: int)
    requires |ps| == |vs|
  {
    && 0 <= i < |ps|
    && Accepts(vs[i], a)
    && (forall j :: 0 <= j < |ps| && Accepts(vs[j], a) ==> ps[j].tracksTotal <= ps[i].tracksTotal)
    && (forall j :: 0 <= j < i && Accepts(vs[j], a) ==> ps[j].tracksTotal < ps[i].tracksTotal)
  }

  lemma GroupsStep(ps: seq<Playlist>, vs: seq<Verdict>, a: string)
    requires |ps| == |vs| > 0
    ensures var n := |ps| - 1;
      var g0, g := Groups(ps[..n], vs[..n]), Groups(ps, vs);
      (Accepts(vs[n], a) ==> a in g && g[a] == (if a in g0 then g0[a] else []) + [ps[n]])
      && (!Accepts(vs[n], a) ==> (a in g <==> a in g0) && (a in g ==> g[a] == g0[a]))
  {
  }

  lemma {:induction false} GroupKeys(ps: seq<Playlist>, vs: seq<Verdict>, a: string)
    requires |ps| == |vs|
    ensures a in Groups(ps, vs) <==> exists i :: 0 <= i < |ps| && Accepts(vs[i], a)
  {
    if ps != [] {
      var n := |ps| - 1;
      GroupKeys(ps[..n], vs[..n], a);
      GroupsStep(ps, vs, a);
      if exists i :: 0 <= i < n && Accepts(vs[..n][i], a) {
        var i :| 0 <= i < n && Accepts(vs[..n][i], a);
        assert Accepts(vs[i], a);
      }
      if exists i :: 0 <= i < |ps| && Accepts(vs[i], a) {
        var i :| 0 <= i < |ps| && Accepts(vs[i], a);
        if i < n {
          assert Accepts(vs[..n][i], a);
        }
      }
    }
  }

  /** The result's keys are exactly the artists of the playlists classified artist-only. */
  lemma AggregateKeys(ps: seq<Playlist>, vs: seq<Verdict>)
    requires |ps| == |vs|
    ensures forall a :: a in BestPerArtist(Groups(ps, vs)) <==> exists i :: 0 <= i < |ps| && Accepts(vs[i], a)
  {
    forall a ensures a in BestPerArtist(Groups(ps, vs)) <==> exists i :: 0 <= i < |ps| && Accepts(vs[i], a) {
      GroupKeys(ps, vs, a);
    }
  }

  lemma {:induction false} GroupWinner(ps: seq<Playlist>, vs: seq<Verdict>, a: string) returns (i: int)
    requires |ps| == |vs|
    requires a in Groups(ps, vs)
    ensures IsWinner(ps, vs, a, i)
    ensures Largest(Groups(ps, vs)[a]) == ps[i]
  {
    assert ps != [];
    var n := |ps| - 1;
    var ps0, vs0 := ps[..n], vs[..n];
    var g0 := Groups(ps0, vs0);
    GroupsStep(ps, vs, a);
    if !Accepts(vs[n], a) {
      i := GroupWinner(ps0, vs0, a);
      WinnerKept(ps, vs, a, i);
    } else if a !in g0 {
      GroupKeys(ps0, vs0, a);
      forall j | 0 <= j < n ensures !Accepts(vs[j], a) {
        assert vs0[j] == vs[j];
      }
      assert Totals([ps[n]]) == [ps[n].tracksTotal];
      i := n;
      WinnerFirst(ps, vs, a);
    } else {
      var i0 := GroupWinner(ps0, vs0, a);
      LargestSnoc(g0[a], ps[n]);
      assert ps[i0] == ps0[i0];
      i := if ps[n].tracksTotal > ps[i0].tracksTotal then n else i0;
      WinnerNext(ps, vs, a, i0);
    }
  }

  /** A last playlist that does not count for `a` leaves the winner for `a` as it was. */
  lemma WinnerKept(ps: seq<Playlist>, vs: seq<Verdict>, a: string, i: int)
    requires |ps| == |vs| > 0
    requires IsWinner(ps[..|ps| - 1], vs[..|vs| - 1], a, i)
    requires !Accepts(vs[|vs| - 1], a)
    ensures IsWinner(ps, vs, a, i)
  {
    var n := |ps| - 1;
    var ps0, vs0 := ps[..n], vs[..n];
    assert ps[i] == ps0[i] && vs[i] == vs0[i];
    forall j | 0 <= j < |ps| && Accepts(vs[j], a) ensures ps[j].tracksTotal <= ps[i].tracksTotal {
      assert j < n && vs0[j] == vs[j] && ps0[j] == ps[j];
    }
    forall j | 0 <= j < i && Accepts(vs[j], a) ensures ps[j].tracksTotal < ps[i].tracksTotal {
      assert vs0[j] == vs[j] && ps0[j] == ps[j];
    }
  }

  /** A last playlist that is the first to count for `a` is the winner for `a`. */
  lemma WinnerFirst(ps: seq<Playlist>, vs: seq<Verdict>, a: string)
    requires |ps| == |vs| > 0
    requires forall j :: 0 <= j < |vs| - 1 ==> !Accepts(vs[j], a)
    requires Accepts(vs[|vs| - 1], a)
    ensures IsWinner(ps, vs, a, |ps| - 1)
  {
  }

  /** A last playlist that counts for `a` wins only with a strictly larger total. */
  lemma WinnerNext(ps: seq<Playlist>, vs: seq<Verdict>, a: string, i0: int)
    requires |ps| == |vs| > 0
    requires IsWinner(ps[..|ps| - 1], vs[..|vs| - 1], a, i0)
    requires Accepts(vs[|vs| - 1], a)
    ensures IsWinner(ps, vs, a, if ps[|ps| - 1].tracksTotal > ps[i0].tracksTotal then |ps| - 1 else i0)
  {
    var n := |ps| - 1;
    var ps0, vs0 := ps[..n], vs[..n];
    assert ps[i0] == ps0[i0] && vs[i0] == vs0[i0];
    forall j | 0 <= j < n && Accepts(vs[j], a) ensures ps[j].tracksTotal <= ps[i0].tracksTotal {
      assert vs0[j] == vs[j] && ps0[j] == ps[j];
    }
    forall j | 0 <= j < i0 && Accepts(vs[j], a) ensures ps[j].tracksTotal < ps[i0].tracksTotal {
      assert vs0[j] == vs[j] && ps0[j] == ps[j];
    }
  }

  /**
   * Each artist's entry is the playlist with the largest `tracks.total` among
   * that artist's artist-only playlists, the earliest one on a tie.
   */
  lemma AggregateWinner(ps: seq<Playlist>, vs: seq<Verdict>, a: string) returns (i: int)
    requires |ps| == |vs|
    requires a in BestPerArtist(Groups(ps, vs))
    ensures IsWinner(ps, vs, a, i)
    ensures BestPerArtist(Groups(ps, vs))[a] == ps[i]
  {
    i := GroupWinner(ps, vs, a);
  }

  /** Once a playlist's classification fails, the whole classification pass fails with it. */
  lemma {:induction false} VerdictsFailureStays(api: Api, ps: seq<Playlist>, k: int)
    requires Classifiable(api, ps)
    requires 0 <= k <= |ps|
    requires Classifiable(api, ps[..k]) && Verdicts(api, ps[..k]).Failure?
    ensures Verdicts(api, ps) == Verdicts(api, ps[..k])
    decreases |ps| - k
  {
    if k < |ps| {
      var n := |ps| - 1;
      assert ps[..n][..k] == ps[..k];
      VerdictsFailureStays(api, ps[..n], k);
    } else {
      assert ps[..k] == ps;
    }
  }

  /** A successful pass holds, in order, each playlist's own classification. */
  lemma {:induction false} VerdictsPointwise(api: Api, ps: seq<Playlist>)
    requires Classifiable(api, ps)
    ensures Verdicts(api, ps).Success? ==>
      forall i :: 0 <= i < |ps| ==>
        ItemsEnd(api, ps[i]) && ClassifyPlaylist(api, ps[i], DefaultThreshold) == Success(Verdicts(api, ps).value[i])
  {
    if ps != [] && Verdicts(api, ps).Success? {
      var n := |ps| - 1;
      var prefix := ps[..n];
      assert Verdicts(api, prefix).Success?;
      var vs := Verdicts(api, prefix).value;
      assert ItemsEnd(api, ps[n]);
      var c := ClassifyPlaylist(api, ps[n], DefaultThreshold);
      assert c.Success? && Verdicts(api, ps).value == vs + [c.value];
      VerdictsPointwise(api, prefix);
      forall i | 0 <= i < |ps|
        ensures ItemsEnd(api, ps[i]) && ClassifyPlaylist(api, ps[i], DefaultThreshold) == Success(Verdicts(api, ps).value[i])
      {
        if i < n {
          assert prefix[i] == ps[i];
        }
      }
    }
  }

  /**
   * A failed pass carries the error of the first playlist whose classification
   * fails; every playlist before it was classified.
   */
  lemma {:induction false} VerdictsFirstFailure(api: Api, ps: seq<Playlist>) returns (i: int)
    requires Classifiable(api, ps)
    requires Verdicts(api, ps).Failure?
    ensures 0 <= i < |ps|
    ensures forall j :: 0 <= j < i ==> ItemsEnd(api, ps[j]) && ClassifyPlaylist(api, ps[j], DefaultThreshold).Success?
    ensures ItemsEnd(api, ps[i]) && ClassifyPlaylist(api, ps[i], DefaultThreshold) == Failure(Verdicts(api, ps).error)
  {
    var n := |ps| - 1;
    var prefix := ps[..n];
    if Verdicts(api, prefix).Failure? {
      i := VerdictsFirstFailure(api, prefix);
      forall j | 0 <= j <= i ensures ps[j] == prefix[j] {
      }
    } else {
      i := n;
      VerdictsPointwise(api, prefix);
      forall j | 0 <= j < n ensures ps[j] == prefix[j] {
      }
    }
  }
}
