/**
 * `FilmConverter`: builds a `Film` from the ten strings of a `FilmDto`, parsing the
 * year, the first genre, the actor list and the rating, composing the trailer
 * address and fetching the poster. Each exception becomes a `ConvertError`.
 */
module FilmConverter {
  import opened Wrappers
  import opened Sequences
  import opened Strings
  import opened Genres
  import opened Films

  /** The ten string properties of `FilmDto`, in constructor order. */
  datatype FilmDto = FilmDto(
    title: string,
    year: string,
    genre: string,
    poster: string,
    imdbRating: string,
    metaScore: string,
    plot: string,
    director: string,
    actors: string,
    imdbId: string)

  /** The exceptions a conversion can raise. */
  datatype ConvertError =
    | NullDto
    | YearEmpty
    | YearInvalid
    | YearRejected(cause: FilmError)
    | GenreEmpty
    | GenreUnknown(token: string)
    | RatingRejected(cause: FilmError)
    | ActorsEmpty
    | PosterUrlEmpty
    | PosterDownloadFailed

  /** `ParseReleaseYear`: `int.TryParse` of a non-empty string. */
  function ParseReleaseYear(year: string): (r: Result<int, ConvertError>)
    ensures year == "" ==> r == Err(YearEmpty)
    ensures year != "" ==> (r.Ok? <==> ParseInteger(year).Parsed?)
    ensures r.Ok? ==> r.value == ParseInteger(year).value && Int32Min <= r.value <= Int32Max
    ensures r.Err? ==> r.error == YearEmpty || r.error == YearInvalid
    ensures r.Err? ==> StageOf(r.error) == YearStage
  {
    if year == "" then Err(YearEmpty)
    else
      match ParseInteger(year)
      case Parsed(v) => Ok(v)
      case _ => Err(YearInvalid)
  }

  /** Every printed 32-bit year parses back to itself. */
  lemma ParseReleaseYearOfIntToString(n: int)
    requires Int32Min <= n <= Int32Max
    ensures ParseReleaseYear(IntToString(n)) == Ok(n)
  {
    ParseIntegerOfIntToString(n);
  }

  /** `ParseGenre`: the first comma-separated token, trimmed, matched ignoring case. */
  function ParseGenre(genres: string): (r: Result<Genre, ConvertError>)
    ensures r.Err? ==> StageOf(r.error) == GenreStage
    ensures genres == "" ==> r == Err(GenreEmpty)
    ensures r.Ok? ==> genres != "" && NamedBy(r.value, Trim(Split(genres, ',')[0]))
    ensures genres != "" && r.Err? ==>
      r.error == GenreUnknown(Trim(Split(genres, ',')[0]))
      && forall g :: !NamedBy(g, Trim(Split(genres, ',')[0]))
  {
    if genres == "" then Err(GenreEmpty)
    else
      var first := Trim(Split(genres, ',')[0]);
      match ParseName(first)
      case Some(g) => Ok(g)
      case None => Err(GenreUnknown(first))
  }

  lemma NameHasNoComma(g: Genre)
    ensures ',' !in Name(g)
    ensures Name(g) != [] && !IsWhiteSpace(Name(g)[0]) && !IsWhiteSpace(Name(g)[|Name(g)| - 1])
  {
  }

  /** A genre list headed by a member name, as the OMDb service sends it, gives that member. */
  lemma ParseGenreFirstToken(g: Genre, rest: string)
    ensures ParseGenre(Name(g) + "," + rest) == Ok(g)
    ensures ParseGenre(Name(g)) == Ok(g)
  {
    NameHasNoComma(g);
    SplitPrefix(Name(g), rest, ',');
    SplitNoSeparator(Name(g), ',');
    TrimNone(Name(g));
    ParseNameOfName(g, Name(g));
  }

  /** Trims each piece, keeping empty ones and their order. */
  function TrimAll(pieces: seq<string>): (r: seq<string>)
    ensures |r| == |pieces|
    ensures forall i :: 0 <= i < |r| ==> r[i] == Trim(pieces[i])
  {
    seq(|pieces|, i requires 0 <= i < |pieces| => Trim(pieces[i]))
  }

  /** `ParseActors`: the comma-separated pieces of a non-empty string, each trimmed. */
  function ParseActors(actors: string): (r: Result<seq<string>, ConvertError>)
    ensures r.Err? <==> actors == ""
    ensures r.Err? ==> r.error == ActorsEmpty && StageOf(r.error) == ActorsStage
    ensures r.Ok? ==> |r.value| == Count(actors, ',') + 1
    ensures r.Ok? ==> forall i :: 0 <= i < |r.value| ==> ',' !in r.value[i]
    ensures r.Ok? ==> var pieces := Split(actors, ',');
      && Join(pieces, [',']) == actors
      && |r.value| == |pieces|
      && forall i :: 0 <= i < |pieces| ==> r.value[i] == Trim(pieces[i])
  {
    JoinSplit(actors, ',');
    if actors == "" then Err(ActorsEmpty) else Ok(TrimAll(Split(actors, ',')))
  }

  /** The pieces of `Join(parts, ", ")` split at the commas: every piece after the first keeps a space. */
  function SpacedPieces(parts: seq<string>): (r: seq<string>)
    requires |parts| >= 1
    ensures |r| == |parts| && r[0] == parts[0]
    ensures forall i :: 1 <= i < |r| ==> r[i] == " " + parts[i]
  {
    [parts[0]] + seq(|parts| - 1, i requires 0 <= i < |parts| - 1 => " " + parts[i + 1])
  }

  lemma {:induction false} JoinCommaSpace(parts: seq<string>)
    requires |parts| >= 1
    ensures Join(parts, ", ") == Join(SpacedPieces(parts), ",")
  {
    if |parts| > 1 {
      var rest := parts[1..];
      JoinCommaSpace(rest);
      var padded, paddedRest := SpacedPieces(parts), SpacedPieces(rest);
      JoinPrefixFirst(" ", paddedRest, ",");
      assert padded[1..] == [" " + paddedRest[0]] + paddedRest[1..];
    }
  }

  lemma TrimAllSpaced(parts: seq<string>)
    requires |parts| >= 1
    requires forall i :: 0 <= i < |parts| ==> Trim(parts[i]) == parts[i]
    ensures TrimAll(SpacedPieces(parts)) == parts
  {
    var padded := SpacedPieces(parts);
    var trimmed := TrimAll(padded);
    forall i | 0 <= i < |parts| ensures trimmed[i] == parts[i] {
      assert trimmed[i] == Trim(padded[i]);
      if i > 0 {
        TrimSpaced(parts[i]);
      }
    }
  }

  /** The space after a comma goes with the trim. */
  lemma TrimSpaced(part: string)
    requires Trim(part) == part
    ensures Trim(" " + part) == part
  {
    assert " " + part == [' '] + part;
    TrimLeadingWhite(' ', part);
  }

  lemma SpacedPiecesAvoid(parts: seq<string>, c: char)
    requires |parts| >= 1 && c != ' '
    requires forall i :: 0 <= i < |parts| ==> c !in parts[i]
    ensures forall i :: 0 <= i < |parts| ==> c !in SpacedPieces(parts)[i]
  {
  }

  /**
   * The actor list `ToString` prints parses back: joining trimmed, comma-free names
   * with ", " and parsing the result gives the names again.
   */
  lemma ParseActorsOfJoin(parts: seq<string>)
    requires |parts| >= 1 && Join(parts, ", ") != ""
    requires forall i :: 0 <= i < |parts| ==> ',' !in parts[i] && Trim(parts[i]) == parts[i]
    ensures ParseActors(Join(parts, ", ")) == Ok(parts)
  {
    var padded := SpacedPieces(parts);
    JoinCommaSpace(parts);
    SpacedPiecesAvoid(parts, ',');
    SplitJoin(padded, ',');
    TrimAllSpaced(parts);
  }

  /** `Math.Round(x)`: the nearest integer, ties to the even one. */
  function RoundHalfEven(x: real): (n: int)
    ensures -0.5 <= x - n as real <= 0.5
    ensures (x - n as real == 0.5 || x - n as real == -0.5) ==> n % 2 == 0
  {
    var f := x.Floor;
    var d := x - f as real;
    if d < 0.5 then f
    else if d > 0.5 then f + 1
    else if f % 2 == 0 then f
    else f + 1
  }

  /** The rounding is the only integer with those two properties. */
  lemma RoundHalfEvenUnique(x: real, n: int)
    requires -0.5 <= x - n as real <= 0.5
    requires (x - n as real == 0.5 || x - n as real == -0.5) ==> n % 2 == 0
    ensures n == RoundHalfEven(x)
  {
  }

  /**
   * `ParseRating`: 0 for an empty or unparseable string, 10 above 10, otherwise the
   * rounded value. `double.TryParse` is the parameter `parseDouble`.
   */
  function ParseRating(imdbRating: string, parseDouble: string -> Option<real>): (r: int)
    ensures r <= MaxRating
    ensures (imdbRating == "" || parseDouble(imdbRating).None?) ==> r == 0
    ensures imdbRating != "" && parseDouble(imdbRating).Some? ==>
      var x := parseDouble(imdbRating).value;
      if x > 10.0 then r == 10 else -0.5 <= x - r as real <= 0.5
  {
    if imdbRating == "" then 0
    else
      match parseDouble(imdbRating)
      case None => 0
      case Some(x) => if x > 10.0 then 10 else RoundHalfEven(x)
  }

  /**
   * The parsed rating passes the `Rating` setter exactly when the string holds a number
   * above 0.5: a missing rating, `0.5` itself and anything at or below it are rejected.
   */
  lemma RatingAcceptedIff(imdbRating: string, parseDouble: string -> Option<real>)
    ensures ValidRating(ParseRating(imdbRating, parseDouble)) <==>
      imdbRating != "" && parseDouble(imdbRating).Some? && parseDouble(imdbRating).value > 0.5
  {
    if imdbRating != "" && parseDouble(imdbRating).Some? {
      var x := parseDouble(imdbRating).value;
      var n := RoundHalfEven(x);
      if x <= 10.0 && x <= 0.5 {
        assert n <= 0;
      }
    }
  }

  const TrailerPrefix: string := "https://www.imdb.com/title/"
  const TrailerSuffix: string := "/videogallery"

  /** `ParseTrailerUrl`: the IMDb video gallery of the title. */
  function ParseTrailerUrl(imdbId: string): (r: string)
    ensures |r| == |TrailerPrefix| + |imdbId| + |TrailerSuffix|
    ensures r[..|TrailerPrefix|] == TrailerPrefix
    ensures r[|r| - |TrailerSuffix|..] == TrailerSuffix
    ensures r[|TrailerPrefix|..|r| - |TrailerSuffix|] == imdbId
  {
    var r := TrailerPrefix + imdbId + TrailerSuffix;
    assert r[..|TrailerPrefix|] == TrailerPrefix;
    assert r[|r| - |TrailerSuffix|..] == TrailerSuffix;
    assert r[|TrailerPrefix|..|r| - |TrailerSuffix|] == imdbId;
    r
  }

  /** Different titles get different trailer addresses. */
  lemma ParseTrailerUrlInjective(a: string, b: string)
    ensures ParseTrailerUrl(a) == ParseTrailerUrl(b) <==> a == b
  {
  }

  /**
   * `ParsePoster`: an empty address is an error; otherwise the downloader (the parameter
   * `download`, failing with `None`) gives the saved file's path.
   */
  function ParsePoster(url: string, download: string -> Option<string>): (r: Result<string, ConvertError>)
    ensures url == "" ==> r == Err(PosterUrlEmpty)
    ensures url != "" ==> (r.Ok? <==> download(url).Some?)
    ensures r.Ok? ==> r.value == download(url).value
    ensures url != "" && r.Err? ==> r.error == PosterDownloadFailed
    ensures r.Err? ==> StageOf(r.error) == PosterStage
  {
    if url == "" then Err(PosterUrlEmpty)
    else
      match download(url)
      case Some(path) => Ok(path)
      case None => Err(PosterDownloadFailed)
  }

  /** The stages of a conversion in the order their exceptions surface. */
  datatype Stage = NullCheck | YearStage | GenreStage | RatingStage | ActorsStage | PosterStage

  function StageIndex(st: Stage): nat {
    match st
    case NullCheck => 0 case YearStage => 1 case GenreStage => 2
    case RatingStage => 3 case ActorsStage => 4 case PosterStage => 5
  }

  /** The stage that raises an error. */
  function StageOf(e: ConvertError): Stage {
    match e
    case NullDto => NullCheck
    case YearEmpty => YearStage case YearInvalid => YearStage case YearRejected(_) => YearStage
    case GenreEmpty => GenreStage case GenreUnknown(_) => GenreStage
    case RatingRejected(_) => RatingStage
    case ActorsEmpty => ActorsStage
    case PosterUrlEmpty => PosterStage case PosterDownloadFailed => PosterStage
  }

  /**
   * The object initializer of `ConvertFilmDtoToFilm`, given what each parser returns for the
   * DTO: the properties are assigned in order (name, year, genre, rating, plot, director,
   * actors and the init-only ones) and the first exception ends it. The poster is not among
   * them, so it stays empty.
   */
  function Initialize(d: FilmDto, year: Result<int, ConvertError>, genre: Result<Genre, ConvertError>,
                      rating: int, actors: Result<seq<string>, ConvertError>,
                      currentYear: int): (r: Result<Film, ConvertError>)
    ensures r.Ok? ==> r.value.poster == "" && r.value.id == 0
  {
    var film0 := NewFilm().(name := d.title);
    match year
    case Err(e) => Err(e)
    case Ok(y) =>
      match SetReleaseYear(film0, y, currentYear)
      case Err(e) => Err(YearRejected(e))
      case Ok(film1) =>
        match genre
        case Err(e) => Err(e)
        case Ok(g) =>
          match SetRating(film1.(genre := g), rating)
          case Err(e) => Err(RatingRejected(e))
          case Ok(film2) =>
            match actors
            case Err(e) => Err(e)
            case Ok(names) =>
              Ok(film2.(plot := d.plot, director := d.director, actors := names,
                        imdbRating := d.imdbRating, metacriticRating := d.metaScore,
                        trailerUrl := ParseTrailerUrl(d.imdbId)))
  }

  /**
   * The initializer succeeds exactly when each assignment does, and then holds the DTO's
   * fields; otherwise its error comes from the first assignment that fails.
   */
  lemma InitializeOutcome(d: FilmDto, year: Result<int, ConvertError>, genre: Result<Genre, ConvertError>,
                          rating: int, actors: Result<seq<string>, ConvertError>, currentYear: int)
    requires year.Err? ==> StageOf(year.error) == YearStage
    requires genre.Err? ==> StageOf(genre.error) == GenreStage
    requires actors.Err? ==> StageOf(actors.error) == ActorsStage
    ensures var r := Initialize(d, year, genre, rating, actors, currentYear);
      var yearOk := year.Ok? && ValidReleaseYear(year.value, currentYear);
      (r.Ok? <==> yearOk && genre.Ok? && ValidRating(rating) && actors.Ok?)
      && (r.Err? ==>
            StageOf(r.error) == if !yearOk then YearStage
                                else if genre.Err? then GenreStage
                                else if !ValidRating(rating) then RatingStage
                                else ActorsStage)
      && (r.Ok? ==>
            var f := r.value;
            f.name == d.title && f.plot == d.plot && f.director == d.director
            && f.imdbRating == d.imdbRating && f.metacriticRating == d.metaScore
            && f.trailerUrl == ParseTrailerUrl(d.imdbId)
            && f.releaseYear == year.value && f.genre == genre.value && f.rating == rating
            && f.actors == actors.value)
  {
  }

  /** The initializer applied to what the parsers make of the DTO. */
  function InitializeFilm(d: FilmDto, currentYear: int, parseDouble: string -> Option<real>): Result<Film, ConvertError> {
    Initialize(d, ParseReleaseYear(d.year), ParseGenre(d.genre), ParseRating(d.imdbRating, parseDouble),
               ParseActors(d.actors), currentYear)
  }

  /**
   * `ConvertFilmDtoToFilm`: a null DTO is refused; otherwise the film is initialized and the
   * poster fetched unless this is an update of a film that already has one.
   */
  function ConvertFilmDtoToFilm(dto: Option<FilmDto>, isUpdate: bool, currentYear: int,
                                parseDouble: string -> Option<real>,
                                download: string -> Option<string>): (r: Result<Film, ConvertError>)
    ensures dto.None? ==> r == Err(NullDto)
    ensures r.Ok? ==> && r.value.id == 0
                      && ValidReleaseYear(r.value.releaseYear, currentYear)
                      && ValidRating(r.value.rating)
  {
    match dto
    case None => Err(NullDto)
    case Some(d) =>
      match InitializeFilm(d, currentYear, parseDouble)
      case Err(e) => Err(e)
      case Ok(film) =>
        if !isUpdate || film.poster == "" then
          match ParsePoster(d.poster, download)
          case Err(e) => Err(e)
          case Ok(path) => Ok(film.(poster := path))
        else Ok(film)
  }

  predicate YearAccepted(d: FilmDto, currentYear: int) {
    ParseReleaseYear(d.year).Ok? && ValidReleaseYear(ParseReleaseYear(d.year).value, currentYear)
  }

  predicate GenreAccepted(d: FilmDto) {
    ParseGenre(d.genre).Ok?
  }

  predicate RatingAccepted(d: FilmDto, parseDouble: string -> Option<real>) {
    ValidRating(ParseRating(d.imdbRating, parseDouble))
  }

  predicate PosterFetched(d: FilmDto, download: string -> Option<string>) {
    d.poster != "" && download(d.poster).Some?
  }

  /** The first assignment of the initializer, in order, that the DTO makes fail, if any. */
  function FirstInitFailure(d: FilmDto, currentYear: int, parseDouble: string -> Option<real>): Option<Stage> {
    if !YearAccepted(d, currentYear) then Some(YearStage)
    else if !GenreAccepted(d) then Some(GenreStage)
    else if !RatingAccepted(d, parseDouble) then Some(RatingStage)
    else if d.actors == "" then Some(ActorsStage)
    else None
  }

  /** The first check of the whole conversion of a non-null DTO that fails, if any. */
  function FirstFailure(d: FilmDto, currentYear: int, parseDouble: string -> Option<real>,
                        download: string -> Option<string>): Option<Stage>
  {
    match FirstInitFailure(d, currentYear, parseDouble)
    case Some(st) => Some(st)
    case None => if PosterFetched(d, download) then None else Some(PosterStage)
  }

  lemma InitializeFilmOutcome(d: FilmDto, currentYear: int, parseDouble: string -> Option<real>)
    ensures var r := InitializeFilm(d, currentYear, parseDouble);
      (r.Ok? <==> FirstInitFailure(d, currentYear, parseDouble).None?)
      && (r.Err? ==> FirstInitFailure(d, currentYear, parseDouble) == Some(StageOf(r.error)))
      && (r.Ok? ==>
            var f := r.value;
            f.id == 0 && f.poster == "" && f.name == d.title && f.plot == d.plot && f.director == d.director
            && f.imdbRating == d.imdbRating && f.metacriticRating == d.metaScore
            && f.trailerUrl == ParseTrailerUrl(d.imdbId)
            && f.releaseYear == ParseReleaseYear(d.year).value && f.genre == ParseGenre(d.genre).value
            && f.rating == ParseRating(d.imdbRating, parseDouble) && f.actors == ParseActors(d.actors).value)
  {
    var y, g, rt, a := ParseReleaseYear(d.year), ParseGenre(d.genre), ParseRating(d.imdbRating, parseDouble), ParseActors(d.actors);
    InitializeOutcome(d, y, g, rt, a, currentYear);
    assert InitializeFilm(d, currentYear, parseDouble) == Initialize(d, y, g, rt, a, currentYear);
  }

  /**
   * A null DTO is refused first. Otherwise the conversion succeeds exactly when every check
   * passes, the poster download included whatever `isUpdate` says, and an error comes from
   * the first check, in initializer order, that fails.
   */
  lemma ConvertOutcome(dto: Option<FilmDto>, isUpdate: bool, currentYear: int,
                       parseDouble: string -> Option<real>, download: string -> Option<string>)
    ensures var r := ConvertFilmDtoToFilm(dto, isUpdate, currentYear, parseDouble, download);
      (dto.None? ==> r == Err(NullDto))
      && (dto.Some? ==>
            (r.Ok? <==> FirstFailure(dto.value, currentYear, parseDouble, download).None?)
            && (r.Err? ==> FirstFailure(dto.value, currentYear, parseDouble, download) == Some(StageOf(r.error))))
  {
    if dto.Some? {
      var d := dto.value;
      InitializeFilmOutcome(d, currentYear, parseDouble);
      var init := InitializeFilm(d, currentYear, parseDouble);
      if init.Ok? {
        assert init.value.poster == "";
        var poster := ParsePoster(d.poster, download);
        assert poster.Ok? <==> PosterFetched(d, download);
      }
    }
  }

  /**
   * A converted film copies the DTO's text fields, carries the parsed year, genre, rating
   * and actors and the downloaded poster, keeps id 0, and has year and rating in range.
   */
  lemma ConvertedFields(dto: Option<FilmDto>, isUpdate: bool, currentYear: int,
                        parseDouble: string -> Option<real>, download: string -> Option<string>)
    requires ConvertFilmDtoToFilm(dto, isUpdate, currentYear, parseDouble, download).Ok?
    ensures var f := ConvertFilmDtoToFilm(dto, isUpdate, currentYear, parseDouble, download).value;
      var d := dto.value;
      f.id == 0 && f.name == d.title && f.plot == d.plot && f.director == d.director
      && f.imdbRating == d.imdbRating && f.metacriticRating == d.metaScore
      && f.trailerUrl == ParseTrailerUrl(d.imdbId)
      && f.releaseYear == ParseInteger(d.year).value && ValidReleaseYear(f.releaseYear, currentYear)
      && NamedBy(f.genre, Trim(Split(d.genre, ',')[0]))
      && f.rating == ParseRating(d.imdbRating, parseDouble) && ValidRating(f.rating)
      && f.actors == TrimAll(Split(d.actors, ','))
      && f.poster == download(d.poster).value
  {
    InitializeFilmOutcome(dto.value, currentYear, parseDouble);
  }

  /** `isUpdate` has no effect: the freshly initialized film never has a poster yet. */
  lemma ConvertIgnoresIsUpdate(dto: Option<FilmDto>, currentYear: int,
                               parseDouble: string -> Option<real>, download: string -> Option<string>)
    ensures ConvertFilmDtoToFilm(dto, true, currentYear, parseDouble, download)
         == ConvertFilmDtoToFilm(dto, false, currentYear, parseDouble, download)
  {
  }

  /**
   * A DTO whose year and genre are fine but whose rating is missing or unreadable fails:
   * the 0 that `ParseRating` returns for it is refused by the `Rating` setter.
   */
  lemma MissingRatingRejected(d: FilmDto, isUpdate: bool, currentYear: int,
                              parseDouble: string -> Option<real>, download: string -> Option<string>)
    requires YearAccepted(d, currentYear) && GenreAccepted(d)
    requires d.imdbRating == "" || parseDouble(d.imdbRating).None?
    ensures ConvertFilmDtoToFilm(Some(d), isUpdate, currentYear, parseDouble, download)
         == Err(RatingRejected(RatingOutOfRange(0)))
  {
    var y, g, rt, a := ParseReleaseYear(d.year), ParseGenre(d.genre), ParseRating(d.imdbRating, parseDouble), ParseActors(d.actors);
    assert InitializeFilm(d, currentYear, parseDouble) == Initialize(d, y, g, rt, a, currentYear);
  }
}
