/**
 * The console dialogue that builds a film field by field. Standard input is the sequence
 * of lines still to be read, `lines[pos..]`; each step asks again until a line is
 * accepted and reports the position after that line. When the lines run out the step
 * ends with `InputExhausted`, where the console program would keep waiting.
 */
module FilmBuilder {
  import opened Wrappers
  import opened Strings
  import opened Genres
  import opened Films

  /** A value read from the console and the position of the next line to read. */
  datatype Read<T> = Read(value: T, next: nat)

  /**
   * `InputExhausted`: no line left was accepted. `Overflowed(line)`: `int.Parse` of that
   * line threw an `OverflowException` that the step does not catch.
   */
  datatype InputError = InputExhausted | Overflowed(line: nat)

  /** A name line is rejected when it is empty or white space only. */
  predicate NameRejected(line: string) {
    IsBlank(line)
  }

  /** `int.Parse` fails with a format error, or the year setter rejects the number. */
  predicate YearRejected(line: string, currentYear: int) {
    YearParseRejected(ParseInteger(line), currentYear)
  }

  predicate YearParseRejected(p: IntParse, currentYear: int) {
    match p
    case BadFormat => true
    case Overflow => false
    case Parsed(v) => !ValidReleaseYear(v, currentYear)
  }

  /** `int.Parse` fails in any way, or the rating setter rejects the number. */
  predicate RatingRejected(line: string) {
    RatingParseRejected(ParseInteger(line))
  }

  predicate RatingParseRejected(p: IntParse) {
    match p
    case Parsed(v) => !ValidRating(v)
    case _ => true
  }

  /**
   * `int.Parse` fails in any way, or `choice - 1` is not an index of the genre list, so
   * `GetValue` throws `IndexOutOfRangeException`.
   */
  predicate GenreRejected(line: string) {
    GenreParseRejected(ParseInteger(line))
  }

  predicate GenreParseRejected(p: IntParse) {
    match p
    case Parsed(c) => !(1 <= c <= GenreCount)
    case _ => true
  }

  /**
   * What one line read by a dialogue leads to: a value the dialogue accepts, another
   * question, or an exception the dialogue does not catch.
   */
  datatype LineStep<T> = Accepted(value: T) | AskAgain | Escaped

  /**
   * The retry loop every dialogue runs: read from line `pos` on until `step` accepts a
   * line or lets an exception escape.
   */
  function FirstAccepted<T>(step: string -> LineStep<T>, lines: seq<string>, pos: nat): Result<Read<T>, InputError>
    decreases |lines| - pos
  {
    if pos >= |lines| then Err(InputExhausted)
    else match step(lines[pos])
      case Accepted(v) => Ok(Read(v, pos + 1))
      case AskAgain => FirstAccepted(step, lines, pos + 1)
      case Escaped => Err(Overflowed(pos))
  }

  /**
   * The loop stops at the first line that is not asked again: it accepts that line's
   * value and reports the position after it, or fails at it with the error that escaped.
   * It ends with `InputExhausted` only when every line left asks again.
   */
  lemma {:induction false} FirstAcceptedStops<T>(step: string -> LineStep<T>, lines: seq<string>, pos: nat)
    ensures var r := FirstAccepted(step, lines, pos);
      && (r.Ok? ==>
        && pos < r.value.next <= |lines|
        && step(lines[r.value.next - 1]) == Accepted(r.value.value)
        && forall j :: pos <= j < r.value.next - 1 ==> step(lines[j]).AskAgain?)
      && (r.Err? && r.error.Overflowed? ==>
        && pos <= r.error.line < |lines|
        && step(lines[r.error.line]).Escaped?
        && forall j :: pos <= j < r.error.line ==> step(lines[j]).AskAgain?)
      && (r == Err(InputExhausted) ==> forall j :: pos <= j < |lines| ==> step(lines[j]).AskAgain?)
    decreases |lines| - pos
  {
    if pos < |lines| {
      var r := FirstAccepted(step, lines, pos);
      match step(lines[pos])
      case AskAgain =>
        FirstAcceptedStops(step, lines, pos + 1);
        var rest := FirstAccepted(step, lines, pos + 1);
        assert r == rest;
        var end := if rest.Ok? then rest.value.next - 1 else if rest.error.Overflowed? then rest.error.line else |lines|;
        assert forall j :: pos + 1 <= j < end ==> step(lines[j]).AskAgain?;
        assert forall j :: pos <= j < end ==> step(lines[j]).AskAgain?;
      case Accepted(v) =>
        assert r == Ok(Read(v, pos + 1));
      case Escaped =>
        assert r == Err(Overflowed(pos));
    }
  }

  /** A loop whose step never lets an exception escape fails only by running out of lines. */
  lemma FirstAcceptedCatchesAll<T>(step: string -> LineStep<T>, lines: seq<string>, pos: nat)
    requires forall line :: !step(line).Escaped?
    ensures FirstAccepted(step, lines, pos).Err? ==> FirstAccepted(step, lines, pos).error == InputExhausted
  {
    FirstAcceptedStops(step, lines, pos);
  }

  /** A name line: accepted as it is unless it is blank. */
  function NameStep(line: string): (r: LineStep<string>)
    ensures r.AskAgain? <==> NameRejected(line)
    ensures r.Accepted? ==> r.value == line
    ensures !r.Escaped?
  {
    if IsBlank(line) then AskAgain else Accepted(line)
  }

  /** A year line: its year when it parses and passes the setter; an overflow escapes. */
  function YearStep(line: string, currentYear: int): (r: LineStep<int>)
    ensures r.AskAgain? <==> YearRejected(line, currentYear)
    ensures r.Escaped? <==> ParseInteger(line) == Overflow
    ensures r.Accepted? ==> ParseInteger(line) == Parsed(r.value) && ValidReleaseYear(r.value, currentYear)
  {
    match ParseInteger(line)
    case Overflow => Escaped
    case BadFormat => AskAgain
    case Parsed(year) => if ValidReleaseYear(year, currentYear) then Accepted(year) else AskAgain
  }

  /** A rating line: its number when that is from 1 to 10; anything else, overflow included, asks again. */
  function RatingStep(line: string): (r: LineStep<int>)
    ensures r.AskAgain? <==> RatingRejected(line)
    ensures r.Accepted? ==> ParseInteger(line) == Parsed(r.value) && ValidRating(r.value)
    ensures !r.Escaped?
  {
    var parsed := ParseInteger(line);
    if parsed.Parsed? && ValidRating(parsed.value) then Accepted(parsed.value) else AskAgain
  }

  /** A menu line: the genre with ordinal `choice - 1`, if there is one; anything else asks again. */
  function GenreStep(line: string): (r: LineStep<Genre>)
    ensures r.AskAgain? <==> GenreRejected(line)
    ensures r.Accepted? ==> Ordinal(r.value) == ParseInteger(line).value - 1
    ensures !r.Escaped?
  {
    var parsed := ParseInteger(line);
    if parsed.Parsed? && 1 <= parsed.value <= GenreCount then Accepted(FromOrdinal(parsed.value - 1)) else AskAgain
  }

  /** The value a dialogue read, assigned to the film with `assign`. */
  function Assigned<T>(read: Result<Read<T>, InputError>, film: Film, assign: (Film, T) -> Film): Result<Read<Film>, InputError> {
    match read
    case Ok(r) => Ok(Read(assign(film, r.value), r.next))
    case Err(e) => Err(e)
  }

  /** The name dialogue from line `pos` on. */
  function AskName(film: Film, lines: seq<string>, pos: nat): Result<Read<Film>, InputError> {
    Assigned(FirstAccepted(NameStep, lines, pos), film, (f: Film, name: string) => f.(name := name))
  }

  /** The release year dialogue from line `pos` on. */
  function AskReleaseYear(film: Film, lines: seq<string>, pos: nat, currentYear: int): Result<Read<Film>, InputError> {
    Assigned(FirstAccepted(line => YearStep(line, currentYear), lines, pos), film,
             (f: Film, year: int) => f.(releaseYear := year))
  }

  /** The rating dialogue from line `pos` on. */
  function AskRating(film: Film, lines: seq<string>, pos: nat): Result<Read<Film>, InputError> {
    Assigned(FirstAccepted(RatingStep, lines, pos), film, (f: Film, rating: int) => f.(rating := rating))
  }

  /** The genre dialogue from line `pos` on. */
  function AskGenre(film: Film, lines: seq<string>, pos: nat): Result<Read<Film>, InputError> {
    Assigned(FirstAccepted(GenreStep, lines, pos), film, (f: Film, g: Genre) => f.(genre := g))
  }
  /**
   * The whole dialogue: name, genre, release year and rating asked for in that order on
   * one fresh film, each dialogue starting at the line after the one the previous dialogue
   * accepted; a failed step ends it with its error.
   */
  function AskFilm(lines: seq<string>, pos: nat, currentYear: int): Result<Read<Film>, InputError> {
    var named := AskName(NewFilm(), lines, pos);
    if named.Err? then named
    else
      var genred := AskGenre(named.value.value, lines, named.value.next);
      if genred.Err? then genred
      else
        var dated := AskReleaseYear(genred.value.value, lines, genred.value.next, currentYear);
        if dated.Err? then dated
        else AskRating(dated.value.value, lines, dated.value.next)
  }

  /**
   * The name dialogue assigns the first line that is not blank and changes nothing else;
   * it fails only when the lines run out.
   */
  lemma AskNameShape(film: Film, lines: seq<string>, pos: nat)
    ensures var r := AskName(film, lines, pos);
      && (r.Ok? ==> pos < r.value.next <= |lines| && !IsBlank(r.value.value.name) && r.value.value == film.(name := r.value.value.name))
      && (r.Err? ==> r.error == InputExhausted)
  {
    FirstAcceptedStops(NameStep, lines, pos);
    FirstAcceptedCatchesAll(NameStep, lines, pos);
  }

  /** The genre dialogue changes only the genre; it fails only when the lines run out. */
  lemma AskGenreShape(film: Film, lines: seq<string>, pos: nat)
    ensures var r := AskGenre(film, lines, pos);
      && (r.Ok? ==> pos < r.value.next <= |lines| && r.value.value == film.(genre := r.value.value.genre))
      && (r.Err? ==> r.error == InputExhausted)
  {
    FirstAcceptedStops(GenreStep, lines, pos);
    FirstAcceptedCatchesAll(GenreStep, lines, pos);
  }

  /**
   * The year dialogue changes only the year, to one the year setter accepts; it fails by
   * running out of lines or on a line that overflows.
   */
  lemma AskReleaseYearShape(film: Film, lines: seq<string>, pos: nat, currentYear: int)
    ensures var r := AskReleaseYear(film, lines, pos, currentYear);
      && (r.Ok? ==>
        && pos < r.value.next <= |lines|
        && r.value.value == film.(releaseYear := r.value.value.releaseYear)
        && ValidReleaseYear(r.value.value.releaseYear, currentYear))
      && (r.Err? && r.error.Overflowed? ==> pos <= r.error.line < |lines| && ParseInteger(lines[r.error.line]) == Overflow)
  {
    FirstAcceptedStops(line => YearStep(line, currentYear), lines, pos);
  }

  /** The rating dialogue changes only the rating, to one from 1 to 10; it fails only when the lines run out. */
  lemma AskRatingShape(film: Film, lines: seq<string>, pos: nat)
    ensures var r := AskRating(film, lines, pos);
      && (r.Ok? ==> pos < r.value.next <= |lines| && r.value.value == film.(rating := r.value.value.rating) && ValidRating(r.value.value.rating))
      && (r.Err? ==> r.error == InputExhausted)
  {
    FirstAcceptedStops(RatingStep, lines, pos);
    FirstAcceptedCatchesAll(RatingStep, lines, pos);
  }

  /**
   * A built film has a name that is not blank, a year and a rating in range, and every
   * other field as a new film has it; an overflow error names the line that overflowed.
   */
  lemma AskFilmBuilt(lines: seq<string>, pos: nat, currentYear: int)
    ensures var r := AskFilm(lines, pos, currentYear);
      && (r.Ok? ==> var f := r.value.value;
        && pos + 4 <= r.value.next <= |lines|
        && !IsBlank(f.name)
        && ValidReleaseYear(f.releaseYear, currentYear)
        && ValidRating(f.rating)
        && f.(name := "", genre := DefaultGenre, releaseYear := 0, rating := 0) == NewFilm())
      && (r.Err? && r.error.Overflowed? ==>
        && pos <= r.error.line < |lines|
        && ParseInteger(lines[r.error.line]) == Overflow)
  {
    var named := AskName(NewFilm(), lines, pos);
    AskNameShape(NewFilm(), lines, pos);
    if named.Ok? {
      var n := named.value;
      var genred := AskGenre(n.value, lines, n.next);
      AskGenreShape(n.value, lines, n.next);
      if genred.Ok? {
        var g := genred.value;
        var dated := AskReleaseYear(g.value, lines, g.next, currentYear);
        AskReleaseYearShape(g.value, lines, g.next, currentYear);
        if dated.Ok? {
          var d := dated.value;
          AskRatingShape(d.value, lines, d.next);
        }
      }
    }
  }

  /** `SetName`: reads lines until the name dialogue ends, as `AskName` describes. */
  method SetName(film: Film, lines: seq<string>, pos: nat) returns (r: Result<Read<Film>, InputError>)
    ensures r == AskName(film, lines, pos)
  {
    var i := pos;
    while i < |lines|
      invariant pos <= i
      invariant FirstAccepted(NameStep, lines, i) == FirstAccepted(NameStep, lines, pos)
      decreases |lines| - i
    {
      var name := lines[i];
      if !IsBlank(name) {
        return Ok(Read(film.(name := name), i + 1));
      }
      i := i + 1;
    }
    return Err(InputExhausted);
  }

  /** `SetReleaseYear`: reads lines until the year dialogue ends, as `AskReleaseYear` describes. */
  method SetReleaseYear(film: Film, lines: seq<string>, pos: nat, currentYear: int)
    returns (r: Result<Read<Film>, InputError>)
    ensures r == AskReleaseYear(film, lines, pos, currentYear)
  {
    var i := pos;
    while i < |lines|
      invariant pos <= i
      invariant FirstAccepted(line => YearStep(line, currentYear), lines, i)
             == FirstAccepted(line => YearStep(line, currentYear), lines, pos)
      decreases |lines| - i
    {
      match ParseInteger(lines[i]) {
        case Overflow =>
          return Err(Overflowed(i));
        case BadFormat =>
        case Parsed(date) =>
          var updated := Films.SetReleaseYear(film, date, currentYear);
          if updated.Ok? {
            return Ok(Read(updated.value, i + 1));
          }
      }
      i := i + 1;
    }
    return Err(InputExhausted);
  }

  /** `SetRating`: reads lines until the rating dialogue ends, as `AskRating` describes. */
  method SetRating(film: Film, lines: seq<string>, pos: nat) returns (r: Result<Read<Film>, InputError>)
    ensures r == AskRating(film, lines, pos)
  {
    var i := pos;
    while i < |lines|
      invariant pos <= i
      invariant FirstAccepted(RatingStep, lines, i) == FirstAccepted(RatingStep, lines, pos)
      decreases |lines| - i
    {
      var parsed := ParseInteger(lines[i]);
      if parsed.Parsed? {
        var updated := Films.SetRating(film, parsed.value);
        if updated.Ok? {
          return Ok(Read(updated.value, i + 1));
        }
      }
      i := i + 1;
    }
    return Err(InputExhausted);
  }

  /** `SetGenre`: reads lines until the genre dialogue ends, as `AskGenre` describes. */
  method SetGenre(film: Film, lines: seq<string>, pos: nat) returns (r: Result<Read<Film>, InputError>)
    ensures r == AskGenre(film, lines, pos)
  {
    var i := pos;
    while i < |lines|
      invariant pos <= i
      invariant FirstAccepted(GenreStep, lines, i) == FirstAccepted(GenreStep, lines, pos)
      decreases |lines| - i
    {
      var choice := GenreStep(lines[i]);
      if choice.Accepted? {
        return Ok(Read(film.(genre := choice.value), i + 1));
      }
      i := i + 1;
    }
    return Err(InputExhausted);
  }

  /** `BuildFilm`: runs the four dialogues in order on one film, as `AskFilm` describes. */
  method BuildFilm(lines: seq<string>, pos: nat, currentYear: int) returns (r: Result<Read<Film>, InputError>)
    ensures r == AskFilm(lines, pos, currentYear)
  {
    var named := SetName(NewFilm(), lines, pos);
    if named.Err? {
      return named;
    }
    var genred := SetGenre(named.value.value, lines, named.value.next);
    if genred.Err? {
      return genred;
    }
    var dated := SetReleaseYear(genred.value.value, lines, genred.value.next, currentYear);
    if dated.Err? {
      return dated;
    }
    r := SetRating(dated.value.value, lines, dated.value.next);
  }
}
