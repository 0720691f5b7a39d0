/** The engine's result as this page sees it, and the flattening of its one or
    two tracks into the 1-indexed `(rank, title, record)` list used by the
    detail dropdown. */
module ResultComposer {
  import opened Wrappers

  /** One recommended movie. Only `movie_title` takes part in the logic here;
      the score, year and overview are displayed. */
  datatype Movie = Movie(movie_title: string, final_score: real, year: Option<string>, overview: Option<string>)

  /** The engine's result object. Each attribute may be absent or `None`
      (both are `None` here): single-track results carry `recommendations`,
      dual-track ones also carry the flag and the two tracks. */
  datatype EngineResult = EngineResult(
    recommendations: Option<seq<Movie>>,
    dual_track_mode: Option<bool>,
    entity_track: Option<seq<Movie>>,
    mood_track: Option<seq<Movie>>)

  /** One `(rank, title, record)` tuple. */
  datatype Entry = Entry(rank: nat, title: string, record: Movie)

  function Min(a: int, b: int): int { if a <= b then a else b }

  /** Python's `s[:n]` for `n >= 0`. */
  function Take<T>(s: seq<T>, n: nat): (r: seq<T>)
    ensures |r| == Min(n, |s|) && r == s[..|r|]
  {
    if n <= |s| then s[..n] else s
  }

  /** A track is truthy when present and non-empty. */
  predicate Truthy(track: Option<seq<Movie>>) {
    track.Some? && |track.value| > 0
  }

  /** `is_dual` / `is_dual_track`: the flag is set and both tracks are truthy. */
  predicate IsDualTrack(r: EngineResult) {
    r.dual_track_mode == Some(true) && Truthy(r.entity_track) && Truthy(r.mood_track)
  }

  /** The tuples `enumerate(ms, start)` yields, as `(i, m.movie_title, m)`. */
  function Enumerate(ms: seq<Movie>, start: nat): seq<Entry> {
    if ms == [] then [] else [Entry(start, ms[0].movie_title, ms[0])] + Enumerate(ms[1..], start + 1)
  }

  /** `list` holds the movies of `ms` in order, ranked from `start` upwards,
      each titled by its own record. */
  ghost predicate RankedFrom(list: seq<Entry>, ms: seq<Movie>, start: nat) {
    |list| == |ms| && forall k :: 0 <= k < |list| ==> list[k] == Entry(start + k, ms[k].movie_title, ms[k])
  }

  lemma {:induction false} EnumerateRanked(ms: seq<Movie>, start: nat)
    ensures RankedFrom(Enumerate(ms, start), ms, start)
  {
    if ms != [] {
      EnumerateRanked(ms[1..], start + 1);
    }
  }

  /** `Enumerate` is the only list ranked that way. */
  lemma RankedIsEnumerate(list: seq<Entry>, ms: seq<Movie>, start: nat)
    requires RankedFrom(list, ms, start)
    ensures list == Enumerate(ms, start)
  {
    EnumerateRanked(ms, start);
  }

  /** The list built at the end of a successful search, or `None` when the
      build raises: a result that is not dual-track and has no
      `recommendations` cannot be sliced. */
  function Flatten(r: EngineResult, topN: nat): Option<seq<Entry>> {
    if IsDualTrack(r) then
      var entity := Take(r.entity_track.value, topN);
      Some(Enumerate(entity, 1) + Enumerate(Take(r.mood_track.value, topN), |entity| + 1))
    else
      match r.recommendations
      case None => None
      case Some(recs) => Some(Enumerate(Take(recs, topN), 1))
  }

  /** In dual-track mode the first `min(topN, |entity|)` entity movies come
      first, in track order, then the first `min(topN, |mood|)` mood movies;
      ranks run 1, 2, ... through both, so the mood track starts at
      `min(topN, |entity|) + 1`. */
  lemma FlattenDual(r: EngineResult, topN: nat)
    requires IsDualTrack(r)
    ensures
      var entity := r.entity_track.value;
      var mood := r.mood_track.value;
      var k1 := Min(topN, |entity|);
      && Flatten(r, topN).Some?
      && |Flatten(r, topN).value| == k1 + Min(topN, |mood|)
      && (forall k :: 0 <= k < k1 ==> Flatten(r, topN).value[k] == Entry(k + 1, entity[k].movie_title, entity[k]))
      && (forall k :: k1 <= k < |Flatten(r, topN).value| ==>
            Flatten(r, topN).value[k] == Entry(k + 1, mood[k - k1].movie_title, mood[k - k1]))
  {
    var entity := Take(r.entity_track.value, topN);
    var mood := Take(r.mood_track.value, topN);
    EnumerateRanked(entity, 1);
    EnumerateRanked(mood, |entity| + 1);
  }

  /** Otherwise the first `min(topN, |recommendations|)` recommendations are
      ranked 1, 2, ... in order; without `recommendations` the build fails. */
  lemma FlattenSingle(r: EngineResult, topN: nat)
    requires !IsDualTrack(r)
    ensures r.recommendations.None? <==> Flatten(r, topN).None?
    ensures r.recommendations.Some? ==>
      var recs := r.recommendations.value;
      && Flatten(r, topN).Some?
      && |Flatten(r, topN).value| == Min(topN, |recs|)
      && (forall k :: 0 <= k < |Flatten(r, topN).value| ==>
            Flatten(r, topN).value[k] == Entry(k + 1, recs[k].movie_title, recs[k]))
  {
    if r.recommendations.Some? {
      EnumerateRanked(Take(r.recommendations.value, topN), 1);
    }
  }

  /** Whatever the shape, ranks are exactly 1..n in list order, each title is
      its record's `movie_title`, and no track gives more than `topN`: in
      dual-track mode the list is an entity prefix of at most `topN` records
      followed by a mood part of at most `topN` records. */
  lemma FlattenRanks(r: EngineResult, topN: nat)
    requires Flatten(r, topN).Some?
    ensures var list := Flatten(r, topN).value;
      && (forall k :: 0 <= k < |list| ==> list[k].rank == k + 1 && list[k].title == list[k].record.movie_title)
      && |list| <= (if IsDualTrack(r) then 2 * topN else topN)
    ensures IsDualTrack(r) ==>
      var list := Flatten(r, topN).value;
      var entity := r.entity_track.value;
      var mood := r.mood_track.value;
      var k1 := Min(topN, |entity|);
      && k1 <= topN && |list| - k1 == Min(topN, |mood|) <= topN
      && (forall k :: 0 <= k < k1 ==> list[k].record == entity[k])
      && (forall k :: k1 <= k < |list| ==> list[k].record == mood[k - k1])
    ensures !IsDualTrack(r) ==> |Flatten(r, topN).value| == Min(topN, |r.recommendations.value|)
  {
    if IsDualTrack(r) { FlattenDual(r, topN); } else { FlattenSingle(r, topN); }
  }

  /** One `for i, m in enumerate(ms, start): all_movies.append((i, m.movie_title, m))` loop. */
  method AppendEnumerated(acc: seq<Entry>, ms: seq<Movie>, start: nat) returns (allMovies: seq<Entry>)
    ensures allMovies == acc + Enumerate(ms, start)
  {
    allMovies := acc;
    var i := 0;
    while i < |ms|
      invariant 0 <= i <= |ms|
      invariant |allMovies| == |acc| + i
      invariant allMovies[..|acc|] == acc
      invariant RankedFrom(allMovies[|acc|..], ms[..i], start)
    {
      allMovies := allMovies + [Entry(start + i, ms[i].movie_title, ms[i])];
      i := i + 1;
    }
    assert ms[..i] == ms;
    RankedIsEnumerate(allMovies[|acc|..], ms, start);
    assert allMovies == allMovies[..|acc|] + allMovies[|acc|..];
  }

  /** The "Build movie list for dropdown" block of the search handler. */
  method BuildMovieList(result: EngineResult, topN: nat) returns (ok: bool, allMovies: seq<Entry>)
    ensures ok <==> Flatten(result, topN).Some?
    ensures ok ==> Flatten(result, topN) == Some(allMovies)
  {
    allMovies := [];
    if IsDualTrack(result) {
      var entity := Take(result.entity_track.value, topN);
      allMovies := AppendEnumerated(allMovies, entity, 1);
      var startIdx := |entity| + 1;
      allMovies := AppendEnumerated(allMovies, Take(result.mood_track.value, topN), startIdx);
      assert [] + Enumerate(entity, 1) == Enumerate(entity, 1);
      ok := true;
    } else if result.recommendations.Some? {
      allMovies := AppendEnumerated(allMovies, Take(result.recommendations.value, topN), 1);
      assert allMovies == Enumerate(Take(result.recommendations.value, topN), 1);
      ok := true;
    } else {
      ok := false;
    }
  }

  /** The results panel is drawn only when `recommendations` is truthy; in
      dual-track mode too. */
  predicate ResultsShown(r: EngineResult) {
    Truthy(r.recommendations)
  }

  /** The rows `display_movie_row` draws for `ms` numbered from `start`, each
      returning `(index, movie.movie_title, movie)`. */
  function Rows(ms: seq<Movie>, start: nat): seq<Entry> {
    seq(|ms|, k requires 0 <= k < |ms| => Entry(start + k, ms[k].movie_title, ms[k]))
  }

  /** The rows of the results panel: the entity column then the mood column in
      dual-track mode, else the single list. */
  function DisplayedRows(r: EngineResult, topN: nat): seq<Entry>
    requires ResultsShown(r)
  {
    if IsDualTrack(r) then
      var entity := Take(r.entity_track.value, topN);
      Rows(entity, 1) + Rows(Take(r.mood_track.value, topN), |entity| + 1)
    else
      Rows(Take(r.recommendations.value, topN), 1)
  }

  /** The dropdown list agrees with the drawn rows, rank for rank. */
  lemma DisplayedRowsAgree(r: EngineResult, topN: nat)
    requires ResultsShown(r)
    ensures Flatten(r, topN) == Some(DisplayedRows(r, topN))
  {
    if IsDualTrack(r) {
      var entity := Take(r.entity_track.value, topN);
      var mood := Take(r.mood_track.value, topN);
      RankedIsEnumerate(Rows(entity, 1), entity, 1);
      RankedIsEnumerate(Rows(mood, |entity| + 1), mood, |entity| + 1);
    } else {
      var recs := Take(r.recommendations.value, topN);
      RankedIsEnumerate(Rows(recs, 1), recs, 1);
    }
  }
}
