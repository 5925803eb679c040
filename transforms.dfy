/**
 * The list transforms behind the table operations: the genre and rating filters that
 * `FilterManager` builds and the rating sorts that `SortManager` offers.
 */
module Transforms {
  import opened Sequences
  import opened Sorting
  import opened Strings
  import opened Genres
  import opened Films

  /** The option heading the genre menu: keep every film. */
  const AllGenresOption: string := "Все жанры"
  /** The option heading the rating menu: keep every film. */
  const AnyRatingOption: string := "Любой рейтинг"

  function GenreOf(f: Film): Genre { f.genre }

  function RatingKey(f: Film): int { f.rating }

  /** `f.Genre.ToString() == selected`. */
  function GenreNameIs(selected: string): Film -> bool {
    (f: Film) => Name(f.genre) == selected
  }

  /** `f.Rating.ToString() == selected`. */
  function RatingTextIs(selected: string): Film -> bool {
    (f: Film) => IntToString(f.rating) == selected
  }

  /**
   * The `Apply` of a genre filter: the list itself for the "all genres" option, otherwise
   * the films whose genre name is the selection.
   */
  function FilterByGenre(selected: string, films: seq<Film>): (r: seq<Film>)
    ensures selected == AllGenresOption ==> r == films
    ensures selected != AllGenresOption ==>
      forall f :: f in r <==> f in films && Name(f.genre) == selected
  {
    if selected == AllGenresOption then films else Where(films, GenreNameIs(selected))
  }

  /**
   * The `Apply` of a rating filter: the list itself for the "any rating" option, otherwise
   * the films whose rating, written in decimal, is the selection.
   */
  function FilterByRating(selected: string, films: seq<Film>): (r: seq<Film>)
    ensures selected == AnyRatingOption ==> r == films
    ensures selected != AnyRatingOption ==>
      forall f :: f in r <==> f in films && IntToString(f.rating) == selected
  {
    if selected == AnyRatingOption then films else Where(films, RatingTextIs(selected))
  }

  /** No genre is named like the "all genres" option, so choosing a genre always filters. */
  lemma GenreNameNotSentinel(g: Genre)
    ensures Name(g) != AllGenresOption
  {
    assert Name(g)[0] != AllGenresOption[0];
  }

  /** No rating is written like the "any rating" option, so choosing a rating always filters. */
  lemma RatingTextNotSentinel(n: int)
    ensures IntToString(n) != AnyRatingOption
  {
    assert IntToString(n)[0] != AnyRatingOption[0];
  }

  /** Selecting the name of genre `g` keeps exactly the films of genre `g`, in order. */
  lemma FilterByGenreName(g: Genre, films: seq<Film>)
    ensures FilterByGenre(Name(g), films) == Where(films, KeyIs(GenreOf, g))
  {
    GenreNameNotSentinel(g);
    forall f | f in films ensures GenreNameIs(Name(g))(f) == KeyIs(GenreOf, g)(f) {
      NamesDistinctIgnoringCase(f.genre, g);
      assert GenreNameIs(Name(g))(f) == (Name(f.genre) == Name(g));
      assert KeyIs(GenreOf, g)(f) == (f.genre == g);
    }
    WhereCongruent(films, GenreNameIs(Name(g)), KeyIs(GenreOf, g));
  }

  /** Selecting the text of rating `v` keeps exactly the films rated `v`, in order. */
  lemma FilterByRatingText(v: int, films: seq<Film>)
    ensures FilterByRating(IntToString(v), films) == Where(films, KeyIs(RatingKey, v))
  {
    RatingTextNotSentinel(v);
    forall f | f in films ensures RatingTextIs(IntToString(v))(f) == KeyIs(RatingKey, v)(f) {
      IntToStringInjective(f.rating, v);
      assert RatingTextIs(IntToString(v))(f) == (IntToString(f.rating) == IntToString(v));
      assert KeyIs(RatingKey, v)(f) == (f.rating == v);
    }
    WhereCongruent(films, RatingTextIs(IntToString(v)), KeyIs(RatingKey, v));
  }

  /** A genre filter deletes films and never reorders them. */
  lemma FilterByGenreSubsequence(selected: string, films: seq<Film>)
    ensures IsSubsequence(FilterByGenre(selected, films), films)
    ensures multiset(FilterByGenre(selected, films)) <= multiset(films)
  {
    if selected == AllGenresOption {
      SubsequenceReflexive(films);
    } else {
      WhereIsSubsequence(films, GenreNameIs(selected));
      WhereMultiset(films, GenreNameIs(selected));
    }
  }

  /** A rating filter deletes films and never reorders them. */
  lemma FilterByRatingSubsequence(selected: string, films: seq<Film>)
    ensures IsSubsequence(FilterByRating(selected, films), films)
    ensures multiset(FilterByRating(selected, films)) <= multiset(films)
  {
    if selected == AnyRatingOption {
      SubsequenceReflexive(films);
    } else {
      WhereIsSubsequence(films, RatingTextIs(selected));
      WhereMultiset(films, RatingTextIs(selected));
    }
  }

  lemma FilterByGenreIdempotent(selected: string, films: seq<Film>)
    ensures FilterByGenre(selected, FilterByGenre(selected, films)) == FilterByGenre(selected, films)
  {
    if selected != AllGenresOption {
      WhereIdempotent(films, GenreNameIs(selected));
    }
  }

  lemma FilterByRatingIdempotent(selected: string, films: seq<Film>)
    ensures FilterByRating(selected, FilterByRating(selected, films)) == FilterByRating(selected, films)
  {
    if selected != AnyRatingOption {
      WhereIdempotent(films, RatingTextIs(selected));
    }
  }

  /** The three sort options, in the order of the menu. */
  datatype SortOption = Unsorted | Descending | Ascending

  /** The menu label of each sort option. */
  function Label(o: SortOption): string {
    match o
    case Unsorted => "Без сортировки."
    case Descending => "По убыванию рейтинга."
    case Ascending => "По возрастанию рейтинга."
  }

  /** `OrderByDescending(f => f.Rating)` is the stable sort on the negated rating. */
  function NegatedRatingKey(f: Film): int { -f.rating }

  ghost predicate RatingsAscending(s: seq<Film>) {
    forall i, j :: 0 <= i < j < |s| ==> s[i].rating <= s[j].rating
  }

  ghost predicate RatingsDescending(s: seq<Film>) {
    forall i, j :: 0 <= i < j < |s| ==> s[i].rating >= s[j].rating
  }

  /** The `Apply` of each sort option: a permutation ordered by rating, or the list itself. */
  function SortFilms(o: SortOption, films: seq<Film>): (r: seq<Film>)
    ensures multiset(r) == multiset(films)
    ensures o == Unsorted ==> r == films
    ensures o == Ascending ==> RatingsAscending(r)
    ensures o == Descending ==> RatingsDescending(r)
  {
    match o
    case Unsorted => films
    case Descending =>
      var r := SortBy(films, NegatedRatingKey);
      assert forall i, j :: 0 <= i < j < |r| ==> NegatedRatingKey(r[i]) <= NegatedRatingKey(r[j]);
      r
    case Ascending =>
      var r := SortBy(films, RatingKey);
      assert forall i, j :: 0 <= i < j < |r| ==> RatingKey(r[i]) <= RatingKey(r[j]);
      r
  }

  /** Both sorts are stable: the films of each rating keep their input order. */
  lemma SortFilmsStable(o: SortOption, films: seq<Film>, v: int)
    ensures Where(SortFilms(o, films), KeyIs(RatingKey, v)) == Where(films, KeyIs(RatingKey, v))
  {
    match o
    case Unsorted =>
    case Ascending =>
      SortByStable(films, RatingKey, v);
    case Descending =>
      SortByNegatedStable(films, RatingKey, NegatedRatingKey, v);
  }

  /** A list already in the chosen order is returned as it is. */
  lemma SortFilmsOrdered(o: SortOption, films: seq<Film>)
    requires o == Ascending ==> RatingsAscending(films)
    requires o == Descending ==> RatingsDescending(films)
    ensures SortFilms(o, films) == films
  {
    match o
    case Unsorted =>
    case Ascending =>
      assert SortedBy(films, RatingKey);
      SortBySorted(films, RatingKey);
    case Descending =>
      assert SortedBy(films, NegatedRatingKey);
      SortBySorted(films, NegatedRatingKey);
  }

  lemma SortFilmsIdempotent(o: SortOption, films: seq<Film>)
    ensures SortFilms(o, SortFilms(o, films)) == SortFilms(o, films)
  {
    SortFilmsOrdered(o, SortFilms(o, films));
  }
}
