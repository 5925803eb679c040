# MovieCatalog, modelled in Dafny

This project models the core of MovieCatalog, a C# film catalogue with a console front end. It covers the following parts:

- **The in-memory film store.** A dictionary from id to film, and the counter that hands out ids.
- **The `Film` record.** Its validating `ReleaseYear`/`Rating` setters and its defaults, plus the sixteen-member `GenreOfFilm` enumeration.
- **The conversion of an OMDb `FilmDto` into a `Film`.**
- **The list operations of the table view.** These are a named filter or sort (`Operation`), the ordered list of them (`OperationManager`), and the filter and sort factories (`FilterManager`/`SortManager`).
- **Three views.**
  - the paged film table;
  - the wrap-around carousel;
  - the genre and rating distributions of the breakdown charts.
- **The console layer.**
  - the genre view counter and the popular-genre choice in `FilmOperator`;
  - the retry dialogues of `FilmBuilder`.

Films and operations are values (`datatype`). The store, the operation list, the table view's offset, the carousel's offset and the operator's counter are fields of classes whose methods update them. Each such method states its new state. The retry dialogues and the key loops are methods with `while` loops, proved against the functions that specify them.

Console input enters the model as data:

- standard input is a sequence of lines and a position in it;
- key presses are a sequence of key events;
- a menu selection is a parameter.

The module layout follows the source: one module per source file, plus small library modules (`Wrappers`, `Sequences`, `Sorting`, `Strings`, `Grouping`) that model the .NET and LINQ calls the source relies on:

- `string.Trim`;
- `string.Split`;
- `int.Parse`;
- `Distinct`;
- `Where`;
- the stable `OrderBy`;
- `GroupBy`/`Count`.

One more module, `Transforms`, corresponds to no single source file. It gathers the `Func<List<Film>, List<Film>>` lambdas that the operations carry: the genre and rating filters that `FilterManager` builds (MovieCatalogLibrary/service/dataProcessing/FilterManager.cs:43-45 and 81-83), the rating sorts that `SortManager` offers, and the key selectors (`f.Genre`, `f.Rating`) that the breakdown charts group by.

## Model

| member | source | states |
|---|---|---|
| Genres.Ordinal | MovieCatalogLibrary/model/GenreOfFilm.cs:7-87 | every genre has a declaration position below sixteen, and the list of members holds it at that position |
| Genres.FromOrdinal | MovieCatalogLibrary/model/GenreOfFilm.cs:7-87 | each position below sixteen names the member declared there |
| Genres.AllGenresEnumerates | MovieCatalogLibrary/model/GenreOfFilm.cs:7-87 | the enumeration has exactly sixteen members, each listed once |
| Genres.OrdinalBijection | MovieCatalogLibrary/model/GenreOfFilm.cs:12-86 | declaration positions 0..15 and the members correspond one to one |
| Genres.NamesDistinctIgnoringCase | MovieCatalogLibrary/model/GenreOfFilm.cs:12-86 | two members' names are equal ignoring case only when the members are equal, so a case-insensitive lookup is unambiguous |
| Genres.FindByName | MovieCatalogLibrary/service/parsers/FilmConverter.cs:116 | a found member is in the searched list and is named by the string ignoring case; when nothing is found, no member of the list is |
| Genres.ParseName | MovieCatalogLibrary/service/parsers/FilmConverter.cs:116 | the case-insensitive name lookup finds a member exactly when some member is named by the string |
| Genres.ParseNameOfName | MovieCatalogLibrary/service/parsers/FilmConverter.cs:116 | a string naming a member, in any letter case, is looked up as that member |
| Films.NewFilm | MovieCatalogLibrary/model/Film.cs:16-62 | a new film has empty strings, no actors, the first genre (Fantasy), and id, year and rating 0 |
| Films.SetReleaseYear | MovieCatalogLibrary/model/Film.cs:70-80 | the year setter succeeds exactly for 1800 ≤ year ≤ current year and then changes only the year; otherwise it raises an out-of-range error |
| Films.SetRating | MovieCatalogLibrary/model/Film.cs:88-97 | the rating setter succeeds exactly for 1 ≤ rating ≤ 10 and then changes only the rating; otherwise it raises an out-of-range error |
| Films.SetterBoundsAccepted | MovieCatalogLibrary/model/Film.cs:75-93 | 1800, the current year, 1 and 10 are accepted; 1799, next year, 0 and 11 are refused |
| Films.Assign | MovieCatalogLibrary/model/Film.cs:46-97 | one property assignment fails only for a year or rating out of range, and never touches the init-only fields |
| Films.InitOnlyUnchanged | MovieCatalogLibrary/model/Film.cs:46-56 | no sequence of property assignments changes `ImdbRating`, `MetacriticRating` or `TrailerUrl` |
| Films.AssignKeepsRanges | MovieCatalogLibrary/model/Film.cs:70-97 | once year and rating are in range, every sequence of assignments keeps them in range |
| Films.DisplayLines | MovieCatalogLibrary/model/Film.cs:103-116 | `ToString` is made of eleven lines, each its caption followed by the field: id, name, year and rating printed as integers, the genre by its name, the actors joined by ", ", and the text fields verbatim |
| Films.DisplayLinesReadBack | MovieCatalogLibrary/model/Film.cs:105-109 | the id, year and rating lines, with their captions removed, parse back to the film's values whenever these fit in 32 bits, and overflow otherwise |
| Films.Display | MovieCatalogLibrary/model/Film.cs:103-116 | `ToString` starts with the id line and a line feed and ends with the trailer line, with no line feed after it |
| Films.DisplaySplitsIntoLines | MovieCatalogLibrary/model/Film.cs:103-116 | when no field holds a line feed, splitting `ToString` at line feeds gives back exactly the eleven labelled lines |
| Strings.Trim | MovieCatalogLibrary/service/parsers/FilmConverter.cs:100 | `Trim` removes only white space from both ends and leaves no white space at either end |
| Strings.TrimIdempotent | MovieCatalogLibrary/service/parsers/FilmConverter.cs:100 | trimming twice is trimming once |
| Strings.TrimNone | MovieCatalogLibrary/service/parsers/FilmConverter.cs:114 | a string without white space at its ends is left as it is |
| Strings.TrimLeadingWhite | MovieCatalogLibrary/service/parsers/FilmConverter.cs:114 | a leading white-space character makes no difference to the trimmed result |
| Strings.Split | MovieCatalogLibrary/service/parsers/FilmConverter.cs:100 | `Split` gives one piece more than there are separators, and no piece holds a separator |
| Strings.JoinSplit | MovieCatalogLibrary/service/parsers/FilmConverter.cs:100 | joining the pieces of a split with the separator gives back the string |
| Strings.SplitJoin | MovieCatalogLibrary/service/parsers/FilmConverter.cs:100 | splitting a join of separator-free pieces gives back the pieces |
| Strings.IntToString | MovieCatalogLibrary/model/Film.cs:109 | an integer prints as an optional minus sign, present exactly for negatives, followed by digits |
| Strings.IntToStringInjective | MovieCatalogLibrary/service/dataProcessing/FilterManager.cs:67 | different integers print differently |
| Strings.NatToStringValue | MovieCatalogLibrary/model/Film.cs:109 | the digits printed for a natural number read back as that number |
| Strings.ParseInteger | MovieCatalogConsole/service/FilmBuilder.cs:61 | `int.Parse` yields only 32-bit values |
| Strings.ParseIntegerOfIntToString | MovieCatalogConsole/service/FilmBuilder.cs:61 | a printed integer parses back to itself when it fits in 32 bits and overflows otherwise |
| Strings.ParseIntegerSkipsLeadingWhite | MovieCatalogConsole/service/FilmBuilder.cs:61 | leading white space does not change what `int.Parse` yields |
| Strings.ParseIntegerNeedsDigit | MovieCatalogConsole/service/FilmBuilder.cs:61 | a line without a digit never parses to a number |
| Strings.TrimNumberWhiteMargins | MovieCatalogConsole/service/FilmBuilder.cs:61 | the white space `int.Parse` skips is removed from both ends only |
| Sequences.Distinct | MovieCatalogLibrary/service/dataProcessing/FilterManager.cs:29 | `Distinct` keeps each element once, the same elements, in order of first occurrence |
| Sequences.Where | MovieCatalogLibrary/service/dataProcessing/FilterManager.cs:45 | `Where` keeps exactly the elements satisfying the predicate |
| Sequences.WhereIsSubsequence | MovieCatalogLibrary/service/dataProcessing/FilterManager.cs:45 | `Where` keeps the input order: its result is a subsequence of the input |
| Sequences.WhereIdempotent | MovieCatalogLibrary/service/dataProcessing/FilterManager.cs:45 | filtering twice by the same predicate is filtering once |
| Sequences.CountMap | MovieCatalogLibrary/service/visualizations/BreakdownChart.cs:38-40 | the count of a key among the keys equals the number of elements with that key |
| Sorting.SortBy | MovieCatalogLibrary/service/dataProcessing/SortManager.cs:21-22 | `OrderBy` returns a permutation of its input ordered by the key |
| Sorting.SortByStable | MovieCatalogLibrary/service/dataProcessing/SortManager.cs:21-22 | elements with equal keys keep their input order |
| Sorting.SortBySorted | MovieCatalogLibrary/service/dataProcessing/SortManager.cs:21-22 | an already ordered list is returned unchanged |
| Sorting.SortedDistinctKeys | MovieCatalogConsole/service/FilmOperator.cs:196-199 | an ordered list whose keys are pairwise different is strictly ordered |
| Grouping.GroupCounts | MovieCatalogLibrary/service/visualizations/BreakdownChart.cs:38-40 | `GroupBy` then `Count` gives each distinct key once, in order of first occurrence, with its number of occurrences, which is at least one |
| Grouping.GroupCountsTotal | MovieCatalogLibrary/service/visualizations/BreakdownChart.cs:38-40 | the group counts add up to the number of elements |
| FilmManager.InMemoryFilmManager.constructor | MovieCatalogLibrary/service/InMemoryFilmManager.cs:11-14 | a new store is empty, its counter is 0, and its invariant holds |
| FilmManager.InMemoryFilmManager.AddFilm | MovieCatalogLibrary/service/InMemoryFilmManager.cs:29-35 | the film is stored under the counter with its own id overwritten by it; the counter moves on by one; the new id was never used and is above every id in the store; every key equals its film's id and is below the counter |
| FilmManager.InMemoryFilmManager.EditFilm | MovieCatalogLibrary/service/InMemoryFilmManager.cs:42-48 | an absent id raises `KeyNotFound` and changes nothing; otherwise only that entry is replaced; the counter never changes |
| FilmManager.InMemoryFilmManager.DeleteFilm | MovieCatalogLibrary/service/InMemoryFilmManager.cs:55-61 | an absent id raises `KeyNotFound` and changes nothing; otherwise exactly that key is removed; the counter is not moved back, so ids are never reused |
| FilmManager.InMemoryFilmManager.IsIdExist | MovieCatalogLibrary/service/InMemoryFilmManager.cs:68-71 | true exactly when a film is stored under the id |
| FilmManager.InMemoryFilmManager.GetFilm | MovieCatalogLibrary/service/InMemoryFilmManager.cs:79-85 | the film stored under the id, whose own id is that key, or `KeyNotFound` exactly when there is none |
| FilmManager.InMemoryFilmManager.GetAllFilms | MovieCatalogLibrary/service/InMemoryFilmManager.cs:20-23 | a listing of exactly the stored films, each once, in no promised order |
| FilmManager.PermutationListsStore | MovieCatalogLibrary/service/InMemoryFilmManager.cs:20-23 | any rearrangement of a listing of the store is a listing of the store |
| FilmConverter.ParseReleaseYear | MovieCatalogLibrary/service/parsers/FilmConverter.cs:54-63 | an empty year is an error; otherwise the year is accepted exactly when `int.TryParse` succeeds, and then yields that 32-bit value |
| FilmConverter.ParseReleaseYearOfIntToString | MovieCatalogLibrary/service/parsers/FilmConverter.cs:54-63 | a printed 32-bit year reads back as itself |
| FilmConverter.ParseGenre | MovieCatalogLibrary/service/parsers/FilmConverter.cs:109-122 | an empty string is an error; otherwise the first comma-separated piece, trimmed, names the result ignoring case, and an unknown piece is reported when no member has that name |
| FilmConverter.ParseGenreFirstToken | MovieCatalogLibrary/service/parsers/FilmConverter.cs:109-122 | a genre name alone or followed by a comma and anything parses as that genre |
| FilmConverter.ParseActors | MovieCatalogLibrary/service/parsers/FilmConverter.cs:95-101 | an empty string is an error; otherwise the actors are the comma-separated pieces of the string, in order, each trimmed: one per comma plus one, none holding a comma, and the pieces joined with commas give back the string |
| FilmConverter.ParseActorsOfJoin | MovieCatalogLibrary/service/parsers/FilmConverter.cs:95-101 | names joined by ", " as the `Film` display joins them parse back to the same names |
| FilmConverter.RoundHalfEven | MovieCatalogLibrary/service/parsers/FilmConverter.cs:143 | `Math.Round` gives the nearest integer, and the even one at a tie |
| FilmConverter.RoundHalfEvenUnique | MovieCatalogLibrary/service/parsers/FilmConverter.cs:143 | the nearest integer, with ties to even, is unique |
| FilmConverter.ParseRating | MovieCatalogLibrary/service/parsers/FilmConverter.cs:129-144 | an empty or unparseable rating is 0; a value above 10 is 10; any other value is rounded to the nearest integer |
| FilmConverter.RatingAcceptedIff | MovieCatalogLibrary/service/parsers/FilmConverter.cs:30 | the `Rating` setter accepts the parsed rating exactly when the rating parses to a value above 0.5 |
| FilmConverter.ParseTrailerUrl | MovieCatalogLibrary/service/parsers/FilmConverter.cs:70-73 | the trailer address is the IMDb title prefix, the id and "/videogallery" |
| FilmConverter.ParseTrailerUrlInjective | MovieCatalogLibrary/service/parsers/FilmConverter.cs:70-73 | different ids give different trailer addresses |
| FilmConverter.ParsePoster | MovieCatalogLibrary/service/parsers/FilmConverter.cs:81-87 | an empty address is an error; otherwise the poster is the path the download returns, and a failed download is an error |
| FilmConverter.Initialize | MovieCatalogLibrary/service/parsers/FilmConverter.cs:25-37 | a film built by the object initializer has no poster and id 0 |
| FilmConverter.InitializeOutcome | MovieCatalogLibrary/service/parsers/FilmConverter.cs:25-37 | the initializer succeeds exactly when year, genre, rating and actors are acceptable; it then copies title, plot, director and the rating strings verbatim; otherwise the error comes from the first of these that fails, in assignment order |
| FilmConverter.InitializeFilmOutcome | MovieCatalogLibrary/service/parsers/FilmConverter.cs:25-37 | as above, for what the parsers make of the DTO's strings |
| FilmConverter.ConvertOutcome | MovieCatalogLibrary/service/parsers/FilmConverter.cs:19-46 | a null DTO is rejected first; otherwise conversion succeeds exactly when no check fails, and an error comes from the first failing check in the order year, genre, rating, actors, poster |
| FilmConverter.ConvertFilmDtoToFilm | MovieCatalogLibrary/service/parsers/FilmConverter.cs:19-46 | a null DTO raises the null-argument error; a converted film has id 0 and a year and rating the setters accept |
| FilmConverter.ConvertedFields | MovieCatalogLibrary/service/parsers/FilmConverter.cs:19-46 | a converted film has every field the DTO and the parsers determine, a year and rating in range, and the downloaded poster |
| FilmConverter.ConvertIgnoresIsUpdate | MovieCatalogLibrary/service/parsers/FilmConverter.cs:40-43 | the poster is downloaded whatever `isUpdate` says, because the freshly built film has no poster yet |
| FilmConverter.MissingRatingRejected | MovieCatalogLibrary/service/parsers/FilmConverter.cs:30 | a DTO with a missing or unparseable rating fails with the setter's out-of-range error for 0 instead of storing 0 |
| Operations.DefaultOperation | MovieCatalogLibrary/model/Operation.cs:9-10 | a default operation has an empty name and returns every list as it is |
| Operations.NewOperation | MovieCatalogLibrary/model/Operation.cs:15-31 | a null name or a null function is rejected, the name first; otherwise the operation holds the given name and function, or the defaults for those left out |
| Operations.ApplyAll | MovieCatalogLibrary/service/dataProcessing/OperationManager.cs:61 | applying no operations returns the list unchanged |
| Operations.ApplyAllAppend | MovieCatalogLibrary/service/dataProcessing/OperationManager.cs:61 | an operation added last is applied last, to the result of the earlier ones |
| Operations.ApplyAllConcat | MovieCatalogLibrary/service/dataProcessing/OperationManager.cs:61 | applying two lists of operations one after the other is applying their concatenation |
| Operations.ApplyAllShrinking | MovieCatalogLibrary/service/dataProcessing/OperationManager.cs:61 | operations that only drop or reorder films, folded together, only drop or reorder films |
| OperationManager.RemoveAt | MovieCatalogLibrary/service/dataProcessing/OperationManager.cs:37 | removing position i keeps the elements before it and shifts those after it down by one |
| OperationManager.RemoveAtAppended | MovieCatalogLibrary/service/dataProcessing/OperationManager.cs:37 | removing the element just appended gives back the list |
| OperationManager.OperationManager.constructor | MovieCatalogLibrary/service/dataProcessing/OperationManager.cs:10 | a new manager has no operations |
| OperationManager.OperationManager.AddOperation | MovieCatalogLibrary/service/dataProcessing/OperationManager.cs:17-24 | null is rejected and changes nothing; otherwise the operation is appended at the end |
| OperationManager.OperationManager.RemoveOperation | MovieCatalogLibrary/service/dataProcessing/OperationManager.cs:31-38 | an index out of range is rejected and changes nothing; otherwise exactly that element is removed |
| OperationManager.OperationManager.GetOperations | MovieCatalogLibrary/service/dataProcessing/OperationManager.cs:44-47 | the operations in order |
| OperationManager.OperationManager.ApplyOperations | MovieCatalogLibrary/service/dataProcessing/OperationManager.cs:55-62 | a null list is rejected; otherwise the operations are folded over it in insertion order, leaving the list of operations as it was |
| Transforms.FilterByGenre | MovieCatalogLibrary/service/dataProcessing/FilterManager.cs:43-45 | the "all genres" option returns the list itself; any other option keeps exactly the films whose genre name is the option |
| Transforms.FilterByRating | MovieCatalogLibrary/service/dataProcessing/FilterManager.cs:81-83 | the "any rating" option returns the list itself; any other option keeps exactly the films whose printed rating is the option |
| Transforms.FilterByGenreName | MovieCatalogLibrary/service/dataProcessing/FilterManager.cs:45 | selecting a genre's name keeps the films of that genre, in order |
| Transforms.FilterByRatingText | MovieCatalogLibrary/service/dataProcessing/FilterManager.cs:83 | selecting a printed rating keeps the films with that rating, in order |
| Transforms.FilterByGenreSubsequence | MovieCatalogLibrary/service/dataProcessing/FilterManager.cs:43-45 | a genre filter returns a subsequence of its input and never adds a film |
| Transforms.FilterByRatingSubsequence | MovieCatalogLibrary/service/dataProcessing/FilterManager.cs:81-83 | a rating filter returns a subsequence of its input and never adds a film |
| Transforms.FilterByGenreIdempotent | MovieCatalogLibrary/service/dataProcessing/FilterManager.cs:43-45 | applying the same genre filter twice is applying it once |
| Transforms.FilterByRatingIdempotent | MovieCatalogLibrary/service/dataProcessing/FilterManager.cs:81-83 | applying the same rating filter twice is applying it once |
| Transforms.GenreNameNotSentinel | MovieCatalogLibrary/service/dataProcessing/FilterManager.cs:30 | no genre is named like the "all genres" option |
| Transforms.RatingTextNotSentinel | MovieCatalogLibrary/service/dataProcessing/FilterManager.cs:68 | no printed rating reads like the "any rating" option |
| Transforms.SortFilms | MovieCatalogLibrary/service/dataProcessing/SortManager.cs:18-23 | each sort option returns a permutation of its input: unsorted is the input itself, ascending has ratings non-decreasing, descending non-increasing |
| Transforms.SortFilmsStable | MovieCatalogLibrary/service/dataProcessing/SortManager.cs:21-22 | films of equal rating keep their input order |
| Transforms.SortFilmsOrdered | MovieCatalogLibrary/service/dataProcessing/SortManager.cs:21-22 | a list already ordered the chosen way is returned unchanged |
| Transforms.SortFilmsIdempotent | MovieCatalogLibrary/service/dataProcessing/SortManager.cs:21-22 | sorting twice the same way is sorting once |
| FilterManager.GenreName | MovieCatalogLibrary/service/dataProcessing/FilterManager.cs:29 | a film's genre name is never the "all genres" option and is looked up as the film's genre |
| FilterManager.RatingText | MovieCatalogLibrary/service/dataProcessing/FilterManager.cs:67 | a film's printed rating is never the "any rating" option and parses back to the rating when it fits in 32 bits |
| FilterManager.Menu | MovieCatalogLibrary/service/dataProcessing/FilterManager.cs:29-30 | the menu is the head option followed by each name once, in order of first occurrence |
| FilterManager.GenreOptions | MovieCatalogLibrary/service/dataProcessing/FilterManager.cs:29-30 | "Все жанры" followed by each genre name of the list once, in order of first occurrence |
| FilterManager.RatingOptions | MovieCatalogLibrary/service/dataProcessing/FilterManager.cs:67-68 | "Любой рейтинг" followed by each printed rating of the list once, in order of first occurrence |
| FilterManager.CreateGenreFilter | MovieCatalogLibrary/service/dataProcessing/FilterManager.cs:18-47 | a null or empty list is rejected before any choice; otherwise the operation is named by the prefix and the choice, and applies the genre filter for the choice |
| FilterManager.CreateRatingFilter | MovieCatalogLibrary/service/dataProcessing/FilterManager.cs:56-85 | a null or empty list is rejected before any choice; otherwise the operation is named by the prefix and the choice, and applies the rating filter for the choice |
| FilterManager.FilterOperationsShrink | MovieCatalogLibrary/service/dataProcessing/FilterManager.cs:40-46 | a filter operation only drops films |
| FilterManager.GenreOptionKeepsSome | MovieCatalogLibrary/service/dataProcessing/FilterManager.cs:29-45 | choosing an offered genre option keeps at least one film of the list it was offered for |
| FilterManager.RatingOptionKeepsSome | MovieCatalogLibrary/service/dataProcessing/FilterManager.cs:67-83 | choosing an offered rating option keeps at least one film of the list it was offered for |
| SortManager.SortingOptionsComplete | MovieCatalogLibrary/service/dataProcessing/SortManager.cs:18-23 | exactly three sort options, each offered once under its own label |
| SortManager.CreateSortingOperation | MovieCatalogLibrary/service/dataProcessing/SortManager.cs:33-37 | the operation is named by the chosen label and applies the matching sort |
| SortManager.SortingOperationPermutes | MovieCatalogLibrary/service/dataProcessing/SortManager.cs:21-23 | a sort operation returns a permutation of its input |
| FilmTableView.VisibleFilms | MovieCatalogLibrary/service/visualizations/FilmTableView.cs:97-100 | the page is the slice from the offset of at most five films, fewer only at the end of the list |
| FilmTableView.ScrollingStaysInRange | MovieCatalogLibrary/service/visualizations/FilmTableView.cs:151-169 | from an offset between 0 and the last full page, both scrolls stay in that range |
| FilmTableView.ScrollingInverse | MovieCatalogLibrary/service/visualizations/FilmTableView.cs:151-169 | a scroll that moves the offset is undone by the opposite scroll |
| FilmTableView.PageIsFull | MovieCatalogLibrary/service/visualizations/FilmTableView.cs:97-100 | with the offset in range, the page holds five films or the whole list when it is shorter |
| FilmTableView.EveryFilmReachable | MovieCatalogLibrary/service/visualizations/FilmTableView.cs:163-169 | every film of the list is on the page of some offset in range |
| FilmTableView.HandleKey | MovieCatalogLibrary/service/visualizations/FilmTableView.cs:120-146 | Esc alone ends; a filter that cannot be built, and an unknown key, change nothing; scrolling keeps the operations; a filter or sort is appended and the offset reset; a deletion resets the offset and then removes the chosen operation when its index is in range, removes nothing when there are no operations or no choice, and fails with the index error, changing nothing, when the index is out of range |
| FilmTableView.HandleKeyInRange | MovieCatalogLibrary/service/visualizations/FilmTableView.cs:120-212 | every key press keeps the offset in range of the list the view then shows |
| FilmTableView.Run | MovieCatalogLibrary/service/visualizations/FilmTableView.cs:20-43 | a session shows the starting state first, then at most one more state per key press |
| FilmTableView.RunInRange | MovieCatalogLibrary/service/visualizations/FilmTableView.cs:20-43 | in a session started in range, every state shown is in range and every page is full |
| FilmTableView.EscapeEnds | MovieCatalogLibrary/service/visualizations/FilmTableView.cs:141-142 | Esc ends the session at once, in the state it found |
| FilmTableView.OtherKeyIgnored | MovieCatalogLibrary/service/visualizations/FilmTableView.cs:124-145 | an unrecognised key changes nothing and the session goes on |
| FilmTableView.FilmTableView.constructor | MovieCatalogLibrary/service/visualizations/FilmTableView.cs:11-14 | a new view starts at offset 0 with no operations |
| FilmTableView.FilmTableView.ScrollUp | MovieCatalogLibrary/service/visualizations/FilmTableView.cs:151-157 | the offset goes up one film unless it is at the top |
| FilmTableView.FilmTableView.ScrollDown | MovieCatalogLibrary/service/visualizations/FilmTableView.cs:163-169 | the offset goes down one film while more than a page of films lies below it |
| FilmTableView.FilmTableView.ResetOffset | MovieCatalogLibrary/service/visualizations/FilmTableView.cs:209-212 | the offset returns to the top |
| FilmTableView.FilmTableView.ApplyFilterOperation | MovieCatalogLibrary/service/visualizations/FilmTableView.cs:175-186 | the new state is the one the F key leads to |
| FilmTableView.FilmTableView.ApplySortingOperation | MovieCatalogLibrary/service/visualizations/FilmTableView.cs:191-195 | the new state is the one the S key leads to |
| FilmTableView.FilmTableView.RemoveOperation | MovieCatalogLibrary/service/visualizations/FilmTableView.cs:200-204 | the new state and result are the ones the D key leads to |
| FilmTableView.FilmTableView.HandleUserInput | MovieCatalogLibrary/service/visualizations/FilmTableView.cs:120-146 | the new state and result are those of `HandleKey` |
| FilmTableView.FilmTableView.Render | MovieCatalogLibrary/service/visualizations/FilmTableView.cs:20-43 | a null list is rejected and changes nothing; otherwise the loop shows exactly the pages of the session `Run` describes and ends in its state |
| FilmCarousel.Remainder | MovieCatalogLibrary/service/visualizations/FilmCarousel.cs:44-47 | C# `%` keeps the sign of the dividend: between 0 and n for a non-negative dividend |
| FilmCarousel.MoveRight | MovieCatalogLibrary/service/visualizations/FilmCarousel.cs:47 | from an offset that is not negative, Right lands on the list |
| FilmCarousel.MoveLeft | MovieCatalogLibrary/service/visualizations/FilmCarousel.cs:44 | from an offset that is not negative, Left lands on the list |
| FilmCarousel.MovesWrap | MovieCatalogLibrary/service/visualizations/FilmCarousel.cs:43-48 | Right goes to the next film and from the last to the first; Left goes to the previous film and from the first to the last |
| FilmCarousel.MovesInverse | MovieCatalogLibrary/service/visualizations/FilmCarousel.cs:44-47 | Left undoes Right and Right undoes Left |
| FilmCarousel.RightPressesAdvance | MovieCatalogLibrary/service/visualizations/FilmCarousel.cs:47 | up to n presses of Right advance the offset by their number, wrapping once |
| FilmCarousel.FullTurn | MovieCatalogLibrary/service/visualizations/FilmCarousel.cs:47 | n presses of Right come back to the starting film |
| FilmCarousel.Browse | MovieCatalogLibrary/service/visualizations/FilmCarousel.cs:30-52 | the loop shows at most one film more than it reads keys |
| FilmCarousel.BrowseFromRange | MovieCatalogLibrary/service/visualizations/FilmCarousel.cs:30-52 | from an offset on the list the loop never fails, shows the film at that offset first, shows only films of the list, and ends on the list |
| FilmCarousel.RenderedAsWritten | MovieCatalogLibrary/service/visualizations/FilmCarousel.cs:17-53 | a null list is rejected and an empty one shows nothing |
| FilmCarousel.StaleOffsetCrashes | MovieCatalogLibrary/service/visualizations/FilmCarousel.cs:11-61 | a browse of three films can end at the third, and `Render` of two films then fails before reading any key |
| FilmCarousel.Rendered | MovieCatalogLibrary/service/visualizations/FilmCarousel.cs:17-53 | a null list is rejected and an empty one shows nothing |
| FilmCarousel.RenderNeverFails | MovieCatalogLibrary/service/visualizations/FilmCarousel.cs:17-53 | with an offset off the list moved back to the first film, `Render` of a non-empty list never fails and shows films of the list only |
| FilmCarousel.FilmCarousel.constructor | MovieCatalogLibrary/service/visualizations/FilmCarousel.cs:11 | the offset starts at 0 |
| FilmCarousel.FilmCarousel.BrowseLoop | MovieCatalogLibrary/service/visualizations/FilmCarousel.cs:30-52 | the key loop shows exactly the films and ends at the offset and outcome `Browse` describes |
| FilmCarousel.FilmCarousel.RenderAsWritten | MovieCatalogLibrary/service/visualizations/FilmCarousel.cs:17-53 | `Render` as written starts from the offset the last call left |
| FilmCarousel.FilmCarousel.Render | MovieCatalogLibrary/service/visualizations/FilmCarousel.cs:17-53 | `Render` with a stale offset reset first behaves as `Rendered` |
| BreakdownChart.GenreDistribution | MovieCatalogLibrary/service/visualizations/BreakdownChart.cs:31-58 | null is rejected; otherwise one pair per genre present, in order of first occurrence, counting the films of that genre, each count at least one |
| BreakdownChart.RatingDistribution | MovieCatalogLibrary/service/visualizations/BreakdownChart.cs:65-93 | null is rejected; otherwise one pair per rating present, counting the films with that rating, each count at least one |
| BreakdownChart.GenreDistributionTotal | MovieCatalogLibrary/service/visualizations/BreakdownChart.cs:38-40 | the genre counts add up to the number of films |
| BreakdownChart.RatingDistributionTotal | MovieCatalogLibrary/service/visualizations/BreakdownChart.cs:72-75 | the rating counts add up to the number of films |
| BreakdownChart.RatingDistributionAscending | MovieCatalogLibrary/service/visualizations/BreakdownChart.cs:72-75 | the ratings appear strictly ascending, because the films are ordered before they are grouped |
| FilmBuilder.FirstAcceptedStops | MovieCatalogConsole/service/FilmBuilder.cs:29-159 | each retry dialogue ends at the first line it accepts, with that line's value, or at the first line whose exception escapes, and every line before that one asks again; when it runs out of lines, every line asked again |
| FilmBuilder.FirstAcceptedCatchesAll | MovieCatalogConsole/service/FilmBuilder.cs:29-159 | a dialogue that catches every exception fails only by running out of lines |
| FilmBuilder.NameStep | MovieCatalogConsole/service/FilmBuilder.cs:29-47 | a blank name line asks again, any other line is the name, and nothing escapes |
| FilmBuilder.YearStep | MovieCatalogConsole/service/FilmBuilder.cs:53-78 | a year line is accepted exactly when it parses to a year the setter accepts, asks again on a format or range error, and lets an overflow escape |
| FilmBuilder.RatingStep | MovieCatalogConsole/service/FilmBuilder.cs:84-113 | a rating line is accepted exactly when it parses to a number from 1 to 10; every other line, overflow included, asks again |
| FilmBuilder.GenreStep | MovieCatalogConsole/service/FilmBuilder.cs:119-159 | a menu line picks a genre exactly when it parses to a choice c from 1 to 16, and then the genre with ordinal c − 1; every other line asks again |
| FilmBuilder.AskNameShape | MovieCatalogConsole/service/FilmBuilder.cs:29-47 | the name dialogue sets a name that is not blank and changes nothing else, or runs out of lines |
| FilmBuilder.AskReleaseYearShape | MovieCatalogConsole/service/FilmBuilder.cs:53-78 | the year dialogue sets a year in range and changes nothing else, or stops at a line that overflows |
| FilmBuilder.AskRatingShape | MovieCatalogConsole/service/FilmBuilder.cs:84-113 | the rating dialogue sets a rating from 1 to 10 and changes nothing else, or runs out of lines |
| FilmBuilder.AskGenreShape | MovieCatalogConsole/service/FilmBuilder.cs:119-159 | the genre dialogue sets the genre and changes nothing else, or runs out of lines |
| FilmBuilder.AskFilmBuilt | MovieCatalogConsole/service/FilmBuilder.cs:15-23 | a built film has a name that is not blank, a year and a rating in range, and every other field as a new film has it, having read at least one line per dialogue; an overflow error names a line that overflowed |
| FilmBuilder.SetName | MovieCatalogConsole/service/FilmBuilder.cs:29-47 | the loop returns exactly what the name dialogue describes: the first line that is not blank becomes the name |
| FilmBuilder.SetReleaseYear | MovieCatalogConsole/service/FilmBuilder.cs:53-78 | the loop returns exactly what the year dialogue describes: the first line that parses and passes the year setter sets the year, and an overflow ends it at that line |
| FilmBuilder.SetRating | MovieCatalogConsole/service/FilmBuilder.cs:84-113 | the loop returns exactly what the rating dialogue describes: the first line that parses to a number from 1 to 10 sets the rating |
| FilmBuilder.SetGenre | MovieCatalogConsole/service/FilmBuilder.cs:119-159 | the loop returns exactly what the genre dialogue describes: the first line that picks a genre sets it |
| FilmBuilder.BuildFilm | MovieCatalogConsole/service/FilmBuilder.cs:15-23 | the chained setters return exactly the film the four dialogues describe in their order, name, genre, year and rating, each starting at the line where the previous one stopped |
| FilmOperator.TopN | MovieCatalogConsole/service/FilmOperator.cs:54-57 | the number of genres recommended is three, or fewer when fewer genres were viewed |
| FilmOperator.TakeOfDescending | MovieCatalogConsole/service/FilmOperator.cs:215-224 | the first n of the genres ordered by descending count are counted genres, no genre left out was viewed more often than one taken, and none is repeated |
| FilmOperator.IdStep | MovieCatalogConsole/service/FilmOperator.cs:153-181 | an id line is accepted exactly when it parses to the id of a stored film; every other line asks again |
| FilmOperator.AskIdShape | MovieCatalogConsole/service/FilmOperator.cs:153-181 | the id dialogue gives the id of a stored film, or runs out of lines |
| FilmOperator.FilmOperator.constructor | MovieCatalogConsole/service/FilmOperator.cs:14-15 | the operator starts with an empty store and no genre counted |
| FilmOperator.FilmOperator.GetIdFilm | MovieCatalogConsole/service/FilmOperator.cs:153-181 | the loop returns exactly what the id dialogue describes: the first line that parses to the id of a stored film |
| FilmOperator.FilmOperator.GetFilm | MovieCatalogConsole/service/FilmOperator.cs:82-89 | the film shown is the one stored under the id the id dialogue reads; its genre's count goes up by one, from 0 when absent, and no other count changes; a newly seen genre joins the dictionary last; a failure is the dialogue's |
| FilmOperator.MostCounted | MovieCatalogConsole/service/FilmOperator.cs:215-224 | the first topN of the counted genres ordered by descending count: min(topN, counted) of them, most viewed first, none left out viewed more often than one taken, no repeats |
| FilmOperator.FilmOperator.GetMostPopularGenres | MovieCatalogConsole/service/FilmOperator.cs:215-224 | min(topN, counted) distinct counted genres, most viewed first, and no genre left out was viewed more often than one returned |
| FilmOperator.FilmOperator.DisplayRecommendations | MovieCatalogConsole/service/FilmOperator.cs:46-65 | with no views, every stored film once in ascending id order; otherwise the one to three most viewed genres |
| FilmOperator.FilmOperator.GetAllFilmsFromStorage | MovieCatalogConsole/service/FilmOperator.cs:196-199 | every stored film once, in strictly ascending id order |
| FilmOperator.FilmOperator.EditRatingFilm | MovieCatalogConsole/service/FilmOperator.cs:132-138 | the id is the one the id dialogue accepts, and the rating dialogue, started on the next line, gives the new rating; only that film's rating changes and the film stays under its id; when either dialogue runs out of lines nothing changes |
| FilmOperator.FilmOperator.DeleteFilm | MovieCatalogConsole/service/FilmOperator.cs:143-147 | the id is the one the id dialogue accepts, and exactly that film is removed; the counter is untouched |

## Left out

- `IFilmManager` (MovieCatalogLibrary/service/IFilmManager.cs): the interface is not a separate type. Its documented contracts are stated on the methods of `FilmManager.InMemoryFilmManager`, its only implementation here.
- Object identity of films: the store hands out live references that callers change. Films here are values, and an edit replaces the whole entry.
- Overflow of C# `int` counters: the store's `_index` and the genre view counts are unbounded integers, so wrap-around after 2^31 adds or views is not modelled.
- Console I/O and rendering. This covers the Spectre tables, bar charts, carousel images, messages, colours (including the random chart colours) and `AnsiConsole.Prompt`. Prompts enter as parameters: the selected option, the menu position or the key event.
- `FilmTableManager` (MovieCatalogLibrary/service/visualizations/FilmTableManager.cs): only its delegation to `OperationManager` is modelled, inside `FilmTableView.HandleKey`. Its menus are parameters.
- Exhausted input:
  - In the retry dialogues, the console program waits for the next line forever. When the sequence of lines runs out, the model ends with `InputExhausted`.
  - In the key loops (`FilmTableView.Run` and `FilmTableView.FilmTableView.Render`, `FilmCarousel.Browse` and `FilmCarousel.FilmCarousel.BrowseLoop`), `Console.ReadKey` blocks until the next key. When the sequence of key events runs out, the model ends the loop with `Pass`, as Esc would.
- `Enum.TryParse` also accepts numeric strings and comma-separated member lists. Only name matching ignoring case is modelled, in `Genres.ParseName`.
- `double.TryParse` with `NumberStyles.Any` is a parameter `string -> Option<real>`. Doubles are reals, so rounding error in the parse is not modelled.
- `int.Parse` is modelled for invariant-culture `NumberStyles.Integer` input only:
  - ASCII white space at both ends;
  - an optional sign;
  - ASCII digits.
  Culture-specific signs and digits are not modelled.
- `DateTime.Now.Year` is the parameter `currentYear`.
- The poster download (`PosterDownloader`) is the parameter `download: string -> Option<string>`. Its file naming and HTTP errors are not modelled.
- Dictionary enumeration order:
  - `InMemoryFilmManager.GetAllFilms`: `_films.Values` is a listing of the stored films in any order.
  - `GenreAccessCount`: modelled as insertion order, which holds for a dictionary that never removes a key. Ties in `GetMostPopularGenres` are broken in that order.
- `FilmOperator` paths that call members defined only in the `сoreOperations` variant of the store (MovieCatalogLibrary/service/сoreOperations/InMemoryFilmManager.cs), which is not modelled, are left out. These members are `AddCustomFilm`, `AddExistingFilm`, `GetRecommendedFilms` and `UpdateData`. Also left out are the operator methods built on them (adding a film, the recommended-film fetch inside `DisplayRecommendations`, the periodic refresh). `FilmOperator.FilmOperator.DisplayRecommendations` is therefore modelled up to the genres it chooses.
- MovieCatalogLibrary/service/сoreOperations/InMemoryFilmManager.cs and its interface are a second store variant. They are not part of this model.
- Program.cs's menu, its timer and the JSON/file/OMDb I/O are outside the core.

## Findings

| source | as written | input that shows it | evidently intended | confidence | as-written member | corrected member |
|---|---|---|---|---|---|---|
| MovieCatalogLibrary/service/visualizations/FilmCarousel.cs:11-61 | the static `_offset` is kept between calls to `Render` and is never checked against the new list, so `films[_offset]` is read before any key | browse three films with Right, Right, Esc (offset 2), then `Render` a list of two films: it indexes position 2 and throws | a carousel starts on a film of the list it is given | not executed | FilmCarousel.StaleOffsetCrashes | FilmCarousel.RenderNeverFails |
