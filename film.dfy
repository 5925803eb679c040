/**
 * `Film`: the catalog record. Films are values here; a property assignment
 * builds the updated film, and the two validating setters return an error
 * instead of throwing, keeping the film as it was.
 */
module Films {
  import opened Wrappers
  import opened Sequences
  import opened Strings
  import opened Genres

  datatype Film = Film(
    id: int,
    name: string,
    plot: string,
    director: string,
    actors: seq<string>,
    genre: Genre,
    poster: string,
    imdbRating: string,
    metacriticRating: string,
    trailerUrl: string,
    releaseYear: int,
    rating: int)

  const MinReleaseYear: int := 1800
  const MinRating: int := 1
  const MaxRating: int := 10

  /** `ArgumentOutOfRangeException` raised by a validating setter. */
  datatype FilmError = YearOutOfRange(year: int) | RatingOutOfRange(rating: int)

  /**
   * `new Film()`: empty strings, no actors, the default genre, and year and rating 0,
   * since the backing fields are never assigned by the constructor.
   */
  function NewFilm(): (f: Film)
    ensures f.name == "" && f.plot == "" && f.director == "" && f.poster == ""
    ensures f.imdbRating == "" && f.metacriticRating == "" && f.trailerUrl == ""
    ensures f.actors == [] && f.genre == DefaultGenre && Ordinal(f.genre) == 0
    ensures f.id == 0 && f.releaseYear == 0 && f.rating == 0
  {
    Film(0, "", "", "", [], Fantasy, "", "", "", "", 0, 0)
  }

  predicate ValidReleaseYear(year: int, currentYear: int) {
    MinReleaseYear <= year <= currentYear
  }

  predicate ValidRating(rating: int) {
    MinRating <= rating <= MaxRating
  }

  /** The `ReleaseYear` setter, with `DateTime.Now.Year` passed in as `currentYear`. */
  function SetReleaseYear(f: Film, year: int, currentYear: int): (r: Result<Film, FilmError>)
    ensures r.Ok? <==> ValidReleaseYear(year, currentYear)
    ensures r.Ok? ==> r.value == f.(releaseYear := year)
    ensures r.Err? ==> r.error == YearOutOfRange(year)
  {
    if year < MinReleaseYear || year > currentYear then Err(YearOutOfRange(year))
    else Ok(f.(releaseYear := year))
  }

  /** The `Rating` setter. */
  function SetRating(f: Film, rating: int): (r: Result<Film, FilmError>)
    ensures r.Ok? <==> ValidRating(rating)
    ensures r.Ok? ==> r.value == f.(rating := rating)
    ensures r.Err? ==> r.error == RatingOutOfRange(rating)
  {
    if rating < MinRating || rating > MaxRating then Err(RatingOutOfRange(rating))
    else Ok(f.(rating := rating))
  }

  /** The end points of both ranges are accepted. */
  lemma SetterBoundsAccepted(f: Film, currentYear: int)
    requires currentYear >= MinReleaseYear
    ensures SetReleaseYear(f, 1800, currentYear).Ok?
    ensures SetReleaseYear(f, currentYear, currentYear).Ok?
    ensures SetReleaseYear(f, 1799, currentYear).Err?
    ensures SetReleaseYear(f, currentYear + 1, currentYear).Err?
    ensures SetRating(f, 1).Ok? && SetRating(f, 10).Ok?
    ensures SetRating(f, 0).Err? && SetRating(f, 11).Err?
  {
  }

  /** One assignment to a settable property of a `Film` after construction. */
  datatype Assignment =
    | AssignId(id: int)
    | AssignName(name: string)
    | AssignPlot(plot: string)
    | AssignDirector(director: string)
    | AssignActors(actors: seq<string>)
    | AssignGenre(genre: Genre)
    | AssignPoster(poster: string)
    | AssignReleaseYear(year: int)
    | AssignRating(rating: int)

  /** Performs one assignment; only the two validating setters can fail. */
  function Assign(f: Film, a: Assignment, currentYear: int): (r: Result<Film, FilmError>)
    ensures r.Ok? ==> r.value.imdbRating == f.imdbRating
    ensures r.Ok? ==> r.value.metacriticRating == f.metacriticRating
    ensures r.Ok? ==> r.value.trailerUrl == f.trailerUrl
    ensures r.Err? <==> (a.AssignReleaseYear? && !ValidReleaseYear(a.year, currentYear))
                        || (a.AssignRating? && !ValidRating(a.rating))
  {
    match a
    case AssignId(v) => Ok(f.(id := v))
    case AssignName(v) => Ok(f.(name := v))
    case AssignPlot(v) => Ok(f.(plot := v))
    case AssignDirector(v) => Ok(f.(director := v))
    case AssignActors(v) => Ok(f.(actors := v))
    case AssignGenre(v) => Ok(f.(genre := v))
    case AssignPoster(v) => Ok(f.(poster := v))
    case AssignReleaseYear(v) => SetReleaseYear(f, v, currentYear)
    case AssignRating(v) => SetRating(f, v)
  }

  /** Performs the assignments in order, stopping at the first that throws. */
  function AssignAll(f: Film, assignments: seq<Assignment>, currentYear: int): Result<Film, FilmError>
    decreases assignments
  {
    if assignments == [] then Ok(f)
    else
      match Assign(f, assignments[0], currentYear)
      case Err(e) => Err(e)
      case Ok(g) => AssignAll(g, assignments[1..], currentYear)
  }

  /** The init-only properties never change, whatever is assigned afterwards. */
  lemma {:induction false} InitOnlyUnchanged(f: Film, assignments: seq<Assignment>, currentYear: int)
    ensures AssignAll(f, assignments, currentYear).Ok? ==>
      var g := AssignAll(f, assignments, currentYear).value;
      g.imdbRating == f.imdbRating && g.metacriticRating == f.metacriticRating && g.trailerUrl == f.trailerUrl
    decreases assignments
  {
    if assignments != [] {
      var r := Assign(f, assignments[0], currentYear);
      if r.Ok? {
        InitOnlyUnchanged(r.value, assignments[1..], currentYear);
      }
    }
  }

  /** Once both validated properties have been assigned, both stay in range. */
  lemma {:induction false} AssignKeepsRanges(f: Film, assignments: seq<Assignment>, currentYear: int)
    requires ValidReleaseYear(f.releaseYear, currentYear) && ValidRating(f.rating)
    ensures AssignAll(f, assignments, currentYear).Ok? ==>
      var g := AssignAll(f, assignments, currentYear).value;
      ValidReleaseYear(g.releaseYear, currentYear) && ValidRating(g.rating)
    decreases assignments
  {
    if assignments != [] {
      var r := Assign(f, assignments[0], currentYear);
      if r.Ok? {
        AssignKeepsRanges(r.value, assignments[1..], currentYear);
      }
    }
  }

  /**
   * The eleven labelled lines of `ToString`, in order: each is its caption followed by the
   * field it shows, numbers in decimal and the actors joined by ", ".
   */
  function DisplayLines(f: Film): (lines: seq<string>)
    ensures |lines| == 11
    ensures lines[0] == "Id: " + IntToString(f.id)
    ensures lines[1] == "Название: " + f.name
    ensures lines[2] == "Жанр: " + Name(f.genre)
    ensures lines[3] == "Год выпуска: " + IntToString(f.releaseYear)
    ensures lines[4] == "Рейтинг: " + IntToString(f.rating)
    ensures lines[5] == "Режиссер: " + f.director
    ensures lines[6] == "Актеры: " + Join(f.actors, ", ")
    ensures lines[7] == "Описание сюжета: " + f.plot
    ensures lines[8] == "Рейтинг IMDb: " + f.imdbRating
    ensures lines[9] == "Рейтинг Metacritic: " + f.metacriticRating
    ensures lines[10] == "Трейлер: " + f.trailerUrl
  {
    [ "Id: " + IntToString(f.id),
      "Название: " + f.name,
      "Жанр: " + Name(f.genre),
      "Год выпуска: " + IntToString(f.releaseYear),
      "Рейтинг: " + IntToString(f.rating),
      "Режиссер: " + f.director,
      "Актеры: " + Join(f.actors, ", "),
      "Описание сюжета: " + f.plot,
      "Рейтинг IMDb: " + f.imdbRating,
      "Рейтинг Metacritic: " + f.metacriticRating,
      "Трейлер: " + f.trailerUrl ]
  }

  /**
   * The numbers shown read back: after its caption, the id, year and rating lines parse
   * as the film's id, year and rating whenever these fit in 32 bits.
   */
  lemma DisplayLinesReadBack(f: Film)
    ensures var lines := DisplayLines(f);
      && ParseInteger(lines[0][|"Id: "|..]) == InRange(f.id)
      && ParseInteger(lines[3][|"Год выпуска: "|..]) == InRange(f.releaseYear)
      && ParseInteger(lines[4][|"Рейтинг: "|..]) == InRange(f.rating)
  {
    var lines := DisplayLines(f);
    assert lines[0][|"Id: "|..] == IntToString(f.id);
    assert lines[3][|"Год выпуска: "|..] == IntToString(f.releaseYear);
    assert lines[4][|"Рейтинг: "|..] == IntToString(f.rating);
    ParseIntegerOfIntToString(f.id);
    ParseIntegerOfIntToString(f.releaseYear);
    ParseIntegerOfIntToString(f.rating);
  }

  /** `ToString`: the lines separated by a line feed, with none after the last. */
  function Display(f: Film): (r: string)
    ensures var lines := DisplayLines(f);
      && lines[0] + "\n" <= r
      && |lines[10]| <= |r| && r[|r| - |lines[10]|..] == lines[10]
  {
    var lines := DisplayLines(f);
    JoinEndsWithLast(lines, "\n");
    Join(lines, "\n")
  }

  /** No text field of the film holds a line feed. */
  predicate SingleLineFields(f: Film) {
    '\n' !in f.name && '\n' !in f.plot && '\n' !in f.director && '\n' !in f.imdbRating
    && '\n' !in f.metacriticRating && '\n' !in f.trailerUrl
    && forall i :: 0 <= i < |f.actors| ==> '\n' !in f.actors[i]
  }

  /**
   * When no field holds a line feed, `ToString` has exactly eleven lines and line
   * `i` is the `i`-th label followed by its value.
   */
  lemma DisplaySplitsIntoLines(f: Film)
    requires SingleLineFields(f)
    ensures Split(Display(f), '\n') == DisplayLines(f)
  {
    var lines := DisplayLines(f);
    IntToStringSingleLine(f.id);
    IntToStringSingleLine(f.releaseYear);
    IntToStringSingleLine(f.rating);
    NameSingleLine(f.genre);
    JoinAvoids(f.actors, ", ", '\n');
    assert forall i :: 0 <= i < |lines| ==> '\n' !in lines[i] by {
      CaptionsSingleLine();
      LabelledSingleLine("Id: ", IntToString(f.id));
      LabelledSingleLine("Название: ", f.name);
      LabelledSingleLine("Жанр: ", Name(f.genre));
      LabelledSingleLine("Год выпуска: ", IntToString(f.releaseYear));
      LabelledSingleLine("Рейтинг: ", IntToString(f.rating));
      LabelledSingleLine("Режиссер: ", f.director);
      LabelledSingleLine("Актеры: ", Join(f.actors, ", "));
      LabelledSingleLine("Описание сюжета: ", f.plot);
      LabelledSingleLine("Рейтинг IMDb: ", f.imdbRating);
      LabelledSingleLine("Рейтинг Metacritic: ", f.metacriticRating);
      LabelledSingleLine("Трейлер: ", f.trailerUrl);
    }
    SplitJoin(lines, '\n');
  }

  /** None of the eleven captions of `ToString` holds a line feed. */
  lemma CaptionsSingleLine()
    ensures '\n' !in "Id: " && '\n' !in "Название: " && '\n' !in "Жанр: "
    ensures '\n' !in "Год выпуска: " && '\n' !in "Рейтинг: " && '\n' !in "Режиссер: "
    ensures '\n' !in "Актеры: " && '\n' !in "Описание сюжета: " && '\n' !in "Рейтинг IMDb: "
    ensures '\n' !in "Рейтинг Metacritic: " && '\n' !in "Трейлер: "
  {
  }

  lemma LabelledSingleLine(caption: string, text: string)
    requires '\n' !in caption && '\n' !in text
    ensures '\n' !in caption + text
  {
  }

  lemma IntToStringSingleLine(n: int)
    ensures '\n' !in IntToString(n)
  {
  }

  lemma NameSingleLine(g: Genre)
    ensures '\n' !in Name(g)
  {
  }
}
