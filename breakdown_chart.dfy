/** The distributions the breakdown charts draw: films counted per genre and per rating. */
module BreakdownChart {
  import opened Wrappers
  import opened Sequences
  import opened Sorting
  import opened Grouping
  import opened Genres
  import opened Films
  import opened Transforms

  datatype ChartError = NullFilms

  /**
   * `GetGenreChart`'s `genreDistribution`: one (genre, count) pair per genre present, in
   * the order the genres first occur, counting the films of that genre; null is rejected.
   */
  function GenreDistribution(films: Option<seq<Film>>): (r: Result<seq<(Genre, nat)>, ChartError>)
    ensures films.None? <==> r == Err(NullFilms)
    ensures films.Some? ==> r.Ok? && |r.value| == |Distinct(Map(films.value, GenreOf))|
    ensures films.Some? ==> forall i :: 0 <= i < |r.value| ==>
      && r.value[i].0 == Distinct(Map(films.value, GenreOf))[i]
      && r.value[i].1 == |Where(films.value, KeyIs(GenreOf, r.value[i].0))|
      && r.value[i].1 >= 1
  {
    match films
    case None => Err(NullFilms)
    case Some(fs) =>
      var groups := GroupCounts(Map(fs, GenreOf));
      forall i | 0 <= i < |groups| ensures groups[i].1 == |Where(fs, KeyIs(GenreOf, groups[i].0))| {
        CountMap(fs, GenreOf, groups[i].0);
      }
      Ok(groups)
  }

  /**
   * `GetRatingChart`'s `ratingDistribution`: the films ordered by rating, then grouped; one
   * (rating, count) pair per rating present, counting the films with that rating.
   */
  function RatingDistribution(films: Option<seq<Film>>): (r: Result<seq<(int, nat)>, ChartError>)
    ensures films.None? <==> r == Err(NullFilms)
    ensures films.Some? ==> r.Ok? && forall i :: 0 <= i < |r.value| ==>
      && r.value[i].1 == |Where(films.value, KeyIs(RatingKey, r.value[i].0))|
      && r.value[i].1 >= 1
    ensures films.Some? ==> forall v :: (exists i :: 0 <= i < |r.value| && r.value[i].0 == v) <==> v in Map(films.value, RatingKey)
  {
    match films
    case None => Err(NullFilms)
    case Some(fs) =>
      var sorted := SortBy(fs, RatingKey);
      var groups := GroupCounts(Map(sorted, RatingKey));
      forall i | 0 <= i < |groups| ensures groups[i].1 == |Where(fs, KeyIs(RatingKey, groups[i].0))| {
        SortedRatingCount(fs, groups[i].0);
      }
      forall v ensures (exists i :: 0 <= i < |groups| && groups[i].0 == v) <==> v in Map(fs, RatingKey) {
        RatingGroupPresent(fs, groups, v);
      }
      Ok(groups)
  }

  /** Sorting by rating changes how many films have a rating in neither direction. */
  lemma SortedRatingCount(films: seq<Film>, v: int)
    ensures Count(Map(SortBy(films, RatingKey), RatingKey), v) == |Where(films, KeyIs(RatingKey, v))|
  {
    CountMap(SortBy(films, RatingKey), RatingKey, v);
    SortByStable(films, RatingKey, v);
  }

  /** A rating has a group exactly when some film has it. */
  lemma RatingGroupPresent(films: seq<Film>, groups: seq<(int, nat)>, v: int)
    requires groups == GroupCounts(Map(SortBy(films, RatingKey), RatingKey))
    ensures (exists i :: 0 <= i < |groups| && groups[i].0 == v) <==> v in Map(films, RatingKey)
  {
    var ratings := Map(SortBy(films, RatingKey), RatingKey);
    SortedKeysPresent(films, v);
    if v in ratings {
      var d := Distinct(ratings);
      var i :| 0 <= i < |d| && d[i] == v;
      assert groups[i].0 == v;
    }
  }

  /** A rating present in a list is present in any rearrangement of it. */
  lemma RatingPresentInPermutation(a: seq<Film>, b: seq<Film>, v: int)
    requires multiset(a) == multiset(b)
    requires v in Map(a, RatingKey)
    ensures v in Map(b, RatingKey)
  {
    var i :| 0 <= i < |a| && Map(a, RatingKey)[i] == v;
    assert a[i] in multiset(b);
    var j :| 0 <= j < |b| && b[j] == a[i];
    assert Map(b, RatingKey)[j] == v;
  }

  /** Sorting changes no rating present. */
  lemma SortedKeysPresent(films: seq<Film>, v: int)
    ensures v in Map(SortBy(films, RatingKey), RatingKey) <==> v in Map(films, RatingKey)
  {
    var sorted := SortBy(films, RatingKey);
    if v in Map(sorted, RatingKey) {
      RatingPresentInPermutation(sorted, films, v);
    }
    if v in Map(films, RatingKey) {
      RatingPresentInPermutation(films, sorted, v);
    }
  }

  /** The genre counts add up to the number of films. */
  lemma GenreDistributionTotal(films: seq<Film>)
    ensures Total(GenreDistribution(Some(films)).value) == |films|
  {
    GroupCountsTotal(Map(films, GenreOf));
  }

  /** The rating counts add up to the number of films. */
  lemma RatingDistributionTotal(films: seq<Film>)
    ensures Total(RatingDistribution(Some(films)).value) == |films|
  {
    GroupCountsTotal(Map(SortBy(films, RatingKey), RatingKey));
  }

  /** Because the films are ordered first, the ratings of the distribution strictly increase. */
  lemma RatingDistributionAscending(films: seq<Film>)
    ensures var groups := RatingDistribution(Some(films)).value;
      forall i, j :: 0 <= i < j < |groups| ==> groups[i].0 < groups[j].0
  {
    var sorted := SortBy(films, RatingKey);
    var ratings := Map(sorted, RatingKey);
    assert forall i, j :: 0 <= i < j < |ratings| ==> ratings[i] <= ratings[j];
    DistinctOfAscending(ratings);
  }

  /** The distinct values of a non-decreasing list strictly increase. */
  lemma DistinctOfAscending(s: seq<int>)
    requires forall i, j :: 0 <= i < j < |s| ==> s[i] <= s[j]
    ensures forall i, j :: 0 <= i < j < |Distinct(s)| ==> Distinct(s)[i] < Distinct(s)[j]
  {
    var d := Distinct(s);
    forall i, j | 0 <= i < j < |d| ensures d[i] < d[j] {
      var a := FirstIndex(s, d[i]);
      var b := FirstIndex(s, d[j]);
      assert a < b;
      assert d[i] != d[j];
    }
  }
}
