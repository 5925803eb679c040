/**
 * Creation of the genre and rating filter operations: the option menus built from a film
 * list and the operation for the selected option. The selection is a parameter.
 */
module FilterManager {
  import opened Wrappers
  import opened Sequences
  import opened Strings
  import opened Genres
  import opened Films
  import opened Transforms
  import opened Operations

  datatype FilterError = NullFilms | EmptyFilms

  const GenreFilterPrefix: string := "Фильтр по жанру: "
  const RatingFilterPrefix: string := "Фильтр по рейтингу: "

  /**
   * `f.Genre.ToString()`, a genre menu entry: never the "all genres" option, and read
   * back by the genre parser as the film's genre.
   */
  function GenreName(f: Film): (r: string)
    ensures r != AllGenresOption
    ensures ParseName(r) == Some(f.genre)
  {
    GenreNameNotSentinel(f.genre);
    ParseNameOfName(f.genre, Name(f.genre));
    Name(f.genre)
  }

  /**
   * `f.Rating.ToString()`, a rating menu entry: never the "any rating" option, and read
   * back by `int.Parse` as the film's rating when that fits in 32 bits.
   */
  function RatingText(f: Film): (r: string)
    ensures r != AnyRatingOption
    ensures ParseInteger(r) == InRange(f.rating)
  {
    RatingTextNotSentinel(f.rating);
    ParseIntegerOfIntToString(f.rating);
    IntToString(f.rating)
  }

  /**
   * A selection menu: `head` first, then each of `names` once, in the order of first
   * occurrence (`names.Distinct().ToList()` followed by `Insert(0, head)`).
   */
  function Menu(head: string, names: seq<string>): (options: seq<string>)
    requires head !in names
    ensures |options| >= 1 && options[0] == head
    ensures NoDuplicates(options)
    ensures forall s :: s in options[1..] <==> s in names
    ensures forall i, j :: 1 <= i < j < |options| ==> FirstIndex(names, options[i]) < FirstIndex(names, options[j])
  {
    var d := Distinct(names);
    var options := [head] + d;
    assert options[1..] == d;
    assert forall k :: 0 <= k < |d| ==> options[k + 1] == d[k];
    options
  }

  /**
   * The genre menu: "all genres" first, then every genre name that occurs, once each, in
   * the order of its first occurrence.
   */
  function GenreOptions(films: seq<Film>): (options: seq<string>)
    ensures |options| >= 1 && options[0] == AllGenresOption
    ensures NoDuplicates(options)
    ensures forall s :: s in options[1..] <==> s in Map(films, GenreName)
    ensures forall i, j :: 1 <= i < j < |options| ==>
      FirstIndex(Map(films, GenreName), options[i]) < FirstIndex(Map(films, GenreName), options[j])
  {
    var names := Map(films, GenreName);
    forall i | 0 <= i < |names| ensures names[i] != AllGenresOption {
      GenreNameNotSentinel(films[i].genre);
    }
    Menu(AllGenresOption, names)
  }

  /**
   * The rating menu: "any rating" first, then every rating that occurs, in decimal, once
   * each, in the order of its first occurrence.
   */
  function RatingOptions(films: seq<Film>): (options: seq<string>)
    ensures |options| >= 1 && options[0] == AnyRatingOption
    ensures NoDuplicates(options)
    ensures forall s :: s in options[1..] <==> s in Map(films, RatingText)
    ensures forall i, j :: 1 <= i < j < |options| ==>
      FirstIndex(Map(films, RatingText), options[i]) < FirstIndex(Map(films, RatingText), options[j])
  {
    var texts := Map(films, RatingText);
    forall i | 0 <= i < |texts| ensures texts[i] != AnyRatingOption {
      RatingTextNotSentinel(films[i].rating);
    }
    Menu(AnyRatingOption, texts)
  }

  /**
   * `CreateGenreFilter`: a null list, then an empty list, is rejected; otherwise the
   * operation is named after the selection and applies the genre filter.
   */
  function CreateGenreFilter(films: Option<seq<Film>>, selected: string): (r: Result<Operation, FilterError>)
    ensures films.None? ==> r == Err(NullFilms)
    ensures films == Some([]) ==> r == Err(EmptyFilms)
    ensures films.Some? && films.value != [] ==>
      r.Ok? && r.value.name == GenreFilterPrefix + selected &&
      forall xs :: r.value.apply(xs) == FilterByGenre(selected, xs)
  {
    match films
    case None => Err(NullFilms)
    case Some(fs) =>
      if fs == [] then Err(EmptyFilms)
      else
        var op := NewOperation(Given(GenreFilterPrefix + selected), Given(xs => FilterByGenre(selected, xs)));
        Ok(op.value)
  }

  /**
   * `CreateRatingFilter`: a null list, then an empty list, is rejected; otherwise the
   * operation is named after the selection and applies the rating filter.
   */
  function CreateRatingFilter(films: Option<seq<Film>>, selected: string): (r: Result<Operation, FilterError>)
    ensures films.None? ==> r == Err(NullFilms)
    ensures films == Some([]) ==> r == Err(EmptyFilms)
    ensures films.Some? && films.value != [] ==>
      r.Ok? && r.value.name == RatingFilterPrefix + selected &&
      forall xs :: r.value.apply(xs) == FilterByRating(selected, xs)
  {
    match films
    case None => Err(NullFilms)
    case Some(fs) =>
      if fs == [] then Err(EmptyFilms)
      else
        var op := NewOperation(Given(RatingFilterPrefix + selected), Given(xs => FilterByRating(selected, xs)));
        Ok(op.value)
  }

  /** A filter operation only ever keeps some of the films it is given. */
  lemma FilterOperationsShrink(films: Option<seq<Film>>, selected: string)
    ensures CreateGenreFilter(films, selected).Ok? ==> Shrinking(CreateGenreFilter(films, selected).value)
    ensures CreateRatingFilter(films, selected).Ok? ==> Shrinking(CreateRatingFilter(films, selected).value)
  {
    forall xs: seq<Film> ensures multiset(FilterByGenre(selected, xs)) <= multiset(xs)
                           && multiset(FilterByRating(selected, xs)) <= multiset(xs) {
      FilterByGenreSubsequence(selected, xs);
      FilterByRatingSubsequence(selected, xs);
    }
  }

  /** Any option of the genre menu keeps at least one film of the list the menu came from. */
  lemma GenreOptionKeepsSome(films: seq<Film>, selected: string)
    requires films != [] && selected in GenreOptions(films)
    ensures FilterByGenre(selected, films) != []
  {
    if selected != AllGenresOption {
      var options := GenreOptions(films);
      var i :| 0 <= i < |options| && options[i] == selected;
      assert options[1..][i - 1] == selected;
      var names := Map(films, GenreName);
      var k :| 0 <= k < |names| && names[k] == selected;
      assert films[k] in films && Name(films[k].genre) == selected;
    }
  }

  /** Any option of the rating menu keeps at least one film of the list the menu came from. */
  lemma RatingOptionKeepsSome(films: seq<Film>, selected: string)
    requires films != [] && selected in RatingOptions(films)
    ensures FilterByRating(selected, films) != []
  {
    if selected != AnyRatingOption {
      var options := RatingOptions(films);
      var i :| 0 <= i < |options| && options[i] == selected;
      assert selected in options[1..];
      var texts := Map(films, RatingText);
      var k :| 0 <= k < |texts| && texts[k] == selected;
      assert RatingTextIs(selected)(films[k]) by {
        assert RatingText(films[k]) == selected;
      }
      assert films[k] in Where(films, RatingTextIs(selected));
    }
  }
}
