/**
 * The console's film operations over the one store: choosing a film by id, counting how
 * often each genre is viewed, the most viewed genres behind the recommendations, the
 * listing by id, and the rating edit. The counter dictionary is a map for its values
 * and a sequence of its keys in insertion order, the order a dictionary without removals
 * enumerates them in.
 */
module FilmOperator {
  import opened Wrappers
  import opened Sequences
  import opened Sorting
  import opened Strings
  import opened Genres
  import opened Films
  import opened FilmManager
  import opened FilmBuilder

  /** `GetValueOrDefault`: the count of `g`, zero when it was never viewed. */
  function CountOf(counts: map<Genre, nat>, g: Genre): nat {
    if g in counts then counts[g] else 0
  }

  /** A line is refused as an id when `int.Parse` throws or no film has that id. */
  predicate IdRejected(line: string, films: map<int, Film>) {
    match ParseInteger(line)
    case Parsed(id) => id !in films
    case _ => true
  }

  /** An id line: the number it parses to, when a film has that id; anything else asks again. */
  function IdStep(line: string, films: map<int, Film>): (r: LineStep<int>)
    ensures r.AskAgain? <==> IdRejected(line, films)
    ensures r.Accepted? ==> ParseInteger(line) == Parsed(r.value) && r.value in films
    ensures !r.Escaped?
  {
    var parsed := ParseInteger(line);
    if parsed.Parsed? && parsed.value in films then Accepted(parsed.value) else AskAgain
  }

  /** The id dialogue from line `pos` on, with `films` the films stored meanwhile. */
  function AskId(films: map<int, Film>, lines: seq<string>, pos: nat): Result<Read<int>, InputError> {
    FirstAccepted(line => IdStep(line, films), lines, pos)
  }

  /** The id dialogue gives the id of a stored film; it fails only when the lines run out. */
  lemma AskIdShape(films: map<int, Film>, lines: seq<string>, pos: nat)
    ensures var r := AskId(films, lines, pos);
      && (r.Ok? ==> pos < r.value.next <= |lines| && r.value.value in films)
      && (r.Err? ==> r.error == InputExhausted)
  {
    FirstAcceptedStops(line => IdStep(line, films), lines, pos);
    FirstAcceptedCatchesAll(line => IdStep(line, films), lines, pos);
  }

  /** `uniqueGenresCount = 3` capped by the number of counted genres. */
  function TopN(counted: nat): (n: nat)
    ensures n <= 3 && n <= counted
    ensures n == 3 || n == counted
  {
    if counted >= 3 then 3 else counted
  }

  function IdOf(f: Film): int { f.id }

  /** What the recommendations show: the whole catalogue, or the films of these genres. */
  datatype Recommendation = AllFilms(films: seq<Film>) | PopularGenres(genres: seq<Genre>)

  class FilmOperator {
    const store: InMemoryFilmManager
    /** The keys of `GenreAccessCount`, in the order they were first added. */
    var genreOrder: seq<Genre>
    /** The values of `GenreAccessCount`. */
    var accessCount: map<Genre, nat>

    ghost predicate Valid()
      reads this, store
    {
      && store.Valid()
      && NoDuplicates(genreOrder)
      && forall g :: g in accessCount <==> g in genreOrder
    }

    constructor()
      ensures fresh(store) && store.films == map[] && store.index == 0
      ensures genreOrder == [] && accessCount == map[]
      ensures Valid()
    {
      store := new InMemoryFilmManager();
      genreOrder := [];
      accessCount := map[];
    }

    /** Asks for an id until a line parses to the id of a stored film, as `AskId` describes. */
    method GetIdFilm(lines: seq<string>, pos: nat) returns (r: Result<Read<int>, InputError>)
      ensures r == AskId(store.films, lines, pos)
    {
      var i := pos;
      while i < |lines|
        invariant pos <= i
        invariant AskId(store.films, lines, i) == AskId(store.films, lines, pos)
        decreases |lines| - i
      {
        var parsed := ParseInteger(lines[i]);
        if parsed.Parsed? && store.IsIdExist(parsed.value) {
          return Ok(Read(parsed.value, i + 1));
        }
        i := i + 1;
      }
      return Err(InputExhausted);
    }

    /**
     * Shows the film with the id asked for and counts one more view of its genre; a genre
     * seen for the first time joins the dictionary last. The store and every other count
     * stay as they were.
     */
    method GetFilm(lines: seq<string>, pos: nat) returns (r: Result<Read<Film>, InputError>)
      requires Valid()
      modifies this
      ensures Valid()
      ensures r.Ok? ==> var f := r.value.value;
        && AskId(store.films, lines, pos) == Ok(Read(f.id, r.value.next))
        && f.id in store.films && store.films[f.id] == f
        && accessCount == old(accessCount)[f.genre := CountOf(old(accessCount), f.genre) + 1]
        && genreOrder == old(if f.genre in genreOrder then genreOrder else genreOrder + [f.genre])
      ensures r.Err? ==> AskId(store.films, lines, pos) == Err(r.error)
      ensures r.Err? ==> accessCount == old(accessCount) && genreOrder == old(genreOrder)
    {
      var id := GetIdFilm(lines, pos);
      if id.Err? {
        return Err(id.error);
      }
      AskIdShape(store.films, lines, pos);
      var film := store.GetFilm(id.value.value).value;
      ghost var order, counts := genreOrder, accessCount;
      if film.genre !in genreOrder {
        NoDuplicatesAppend(genreOrder, film.genre);
        genreOrder := genreOrder + [film.genre];
      }
      accessCount := accessCount[film.genre := CountOf(accessCount, film.genre) + 1];
      CountedKeys(order, counts, film.genre, genreOrder, accessCount);
      return Ok(Read(film, id.value.next));
    }

    /**
     * `GenreAccessCount.OrderByDescending(pair => pair.Value).Take(topN)`: the `topN`
     * most viewed genres, most viewed first, ties in dictionary order. No genre left
     * out was viewed more often than one taken.
     */
    function GetMostPopularGenres(topN: int): (r: seq<Genre>)
      reads this
      ensures |r| == if topN <= 0 then 0 else if topN <= |genreOrder| then topN else |genreOrder|
      ensures forall i :: 0 <= i < |r| ==> r[i] in genreOrder
      ensures forall i, j :: 0 <= i < j < |r| ==> CountOf(accessCount, r[i]) >= CountOf(accessCount, r[j])
      ensures forall g, i :: g in genreOrder && g !in r && 0 <= i < |r| ==>
        CountOf(accessCount, g) <= CountOf(accessCount, r[i])
      ensures NoDuplicates(genreOrder) ==> NoDuplicates(r)
    {
      MostCounted(genreOrder, accessCount, topN)
    }

    /**
     * The recommendations: the whole catalogue by id when no genre was ever viewed,
     * otherwise the most viewed genres, three of them or as many as were viewed.
     */
    method DisplayRecommendations() returns (plan: Recommendation)
      requires Valid()
      ensures genreOrder == [] ==>
        && plan.AllFilms?
        && ListsStore(plan.films, store.films)
        && forall i, j :: 0 <= i < j < |plan.films| ==> plan.films[i].id < plan.films[j].id
      ensures genreOrder != [] ==>
        && plan == PopularGenres(GetMostPopularGenres(TopN(|genreOrder|)))
        && 1 <= |plan.genres| <= 3
    {
      if |genreOrder| == 0 {
        var all := GetAllFilmsFromStorage();
        return AllFilms(all);
      }
      var topN := TopN(|genreOrder|);
      return PopularGenres(GetMostPopularGenres(topN));
    }

    /** Every stored film once, in strictly ascending id order. */
    method GetAllFilmsFromStorage() returns (r: seq<Film>)
      requires Valid()
      ensures ListsStore(r, store.films)
      ensures forall i, j :: 0 <= i < j < |r| ==> r[i].id < r[j].id
    {
      var all := store.GetAllFilms();
      r := SortBy(all, IdOf);
      PermutationListsStore(all, r, store.films);
      assert forall i, j :: 0 <= i < j < |r| ==> IdOf(r[i]) != IdOf(r[j]);
      SortedDistinctKeys(r, IdOf);
      assert forall i, j :: 0 <= i < j < |r| ==> IdOf(r[i]) < IdOf(r[j]);
    }

    /**
     * Asks for an id and then, from the next line on, a rating, and stores the film again
     * with only its rating changed, under the same id; the counter and the other films
     * stay as they were. Either dialogue running out of lines ends the edit unchanged.
     */
    method EditRatingFilm(lines: seq<string>, pos: nat) returns (r: Result<Read<int>, InputError>)
      requires Valid()
      modifies store
      ensures Valid()
      ensures store.index == old(store.index)
      ensures r.Ok? ==> var id, asked := r.value.value, AskId(old(store.films), lines, pos);
        && asked.Ok? && asked.value.value == id && id in old(store.films)
        && var rated := AskRating(old(store.films)[id], lines, asked.value.next);
        && rated.Ok? && rated.value.next == r.value.next
        && store.films == old(store.films)[id := rated.value.value]
      ensures r.Err? ==> r.error == InputExhausted && store.films == old(store.films)
      ensures r.Err? ==> var asked := AskId(old(store.films), lines, pos);
        asked.Ok? ==> asked.value.value in old(store.films) && AskRating(old(store.films)[asked.value.value], lines, asked.value.next).Err?
    {
      var id := GetIdFilm(lines, pos);
      ghost var films := store.films;
      AskIdShape(films, lines, pos);
      if id.Err? {
        return Err(id.error);
      }
      var film := store.GetFilm(id.value.value).value;
      var rated := FilmBuilder.SetRating(film, lines, id.value.next);
      AskRatingShape(film, lines, id.value.next);
      if rated.Err? {
        return Err(rated.error);
      }
      var edited := store.EditFilm(rated.value.value);
      return Ok(Read(id.value.value, rated.value.next));
    }

    /**
     * Asks for an id and deletes that film; the counter stays as it was. When the lines
     * run out first, nothing is deleted.
     */
    method DeleteFilm(lines: seq<string>, pos: nat) returns (r: Result<Read<int>, InputError>)
      requires Valid()
      modifies store
      ensures Valid()
      ensures store.index == old(store.index)
      ensures r.Ok? ==> r.value.value in old(store.films) && store.films == old(store.films) - {r.value.value}
      ensures r.Err? ==> store.films == old(store.films)
      ensures r == AskId(old(store.films), lines, pos)
    {
      var id := GetIdFilm(lines, pos);
      if id.Err? {
        return Err(id.error);
      }
      AskIdShape(store.films, lines, pos);
      var deleted := store.DeleteFilm(id.value.value);
      return Ok(id.value);
    }
  }

  /** The sort key of `OrderByDescending(pair => pair.Value)`: the count, negated. */
  function DescendingCount(counts: map<Genre, nat>): (key: Genre -> int)
    ensures forall g :: key(g) == 0 - CountOf(counts, g)
  {
    (g: Genre) => 0 - CountOf(counts, g)
  }

  /** The first `topN` genres of `order`, stably sorted by descending count. */
  function MostCounted(order: seq<Genre>, counts: map<Genre, nat>, topN: int): (r: seq<Genre>)
    ensures |r| == if topN <= 0 then 0 else if topN <= |order| then topN else |order|
    ensures forall i :: 0 <= i < |r| ==> r[i] in order
    ensures forall i, j :: 0 <= i < j < |r| ==> CountOf(counts, r[i]) >= CountOf(counts, r[j])
    ensures forall g, i :: g in order && g !in r && 0 <= i < |r| ==> CountOf(counts, g) <= CountOf(counts, r[i])
    ensures NoDuplicates(order) ==> NoDuplicates(r)
  {
    var key := DescendingCount(counts);
    var sorted := SortBy(order, key);
    var n := if topN <= 0 then 0 else if topN <= |sorted| then topN else |sorted|;
    DescendingCounts(sorted, counts, key);
    TakeOfDescending(order, counts, sorted, n);
    sorted[..n]
  }

  /** After one more view of `g` the counter's keys are still the genres in its order. */
  lemma CountedKeys(order: seq<Genre>, counts: map<Genre, nat>, g: Genre, order': seq<Genre>, counts': map<Genre, nat>)
    requires forall h :: h in counts <==> h in order
    requires order' == if g in order then order else order + [g]
    requires counts' == counts[g := CountOf(counts, g) + 1]
    ensures forall h :: h in counts' <==> h in order'
  {
    forall h ensures h in counts' <==> h in order' {
      assert h in order' <==> h in order || h == g;
    }
  }

  /** Sorted by the negated count, the genres come most counted first. */
  lemma DescendingCounts(sorted: seq<Genre>, counts: map<Genre, nat>, key: Genre -> int)
    requires forall g :: key(g) == 0 - CountOf(counts, g)
    requires SortedBy(sorted, key)
    ensures forall i, j :: 0 <= i < j < |sorted| ==> CountOf(counts, sorted[i]) >= CountOf(counts, sorted[j])
  {
    forall i, j | 0 <= i < j < |sorted| ensures CountOf(counts, sorted[i]) >= CountOf(counts, sorted[j]) {
      assert key(sorted[i]) <= key(sorted[j]);
    }
  }

  /**
   * The first `n` of a rearrangement of `order` by descending count: genres of `order`,
   * most counted first, none left out counted more than one taken, and no repeats when
   * `order` has none.
   */
  lemma TakeOfDescending(order: seq<Genre>, counts: map<Genre, nat>, sorted: seq<Genre>, n: nat)
    requires multiset(sorted) == multiset(order) && n <= |sorted|
    requires forall i, j :: 0 <= i < j < |sorted| ==> CountOf(counts, sorted[i]) >= CountOf(counts, sorted[j])
    ensures forall i :: 0 <= i < n ==> sorted[i] in order
    ensures forall g, i :: g in order && g !in sorted[..n] && 0 <= i < n ==>
      CountOf(counts, g) <= CountOf(counts, sorted[i])
    ensures NoDuplicates(order) ==> NoDuplicates(sorted[..n])
  {
    forall i | 0 <= i < n ensures sorted[i] in order {
      assert sorted[i] in multiset(sorted);
    }
    forall g, i | g in order && g !in sorted[..n] && 0 <= i < n
      ensures CountOf(counts, g) <= CountOf(counts, sorted[i])
    {
      assert g in multiset(sorted);
      var k :| 0 <= k < |sorted| && sorted[k] == g;
      assert k >= n;
    }
    if NoDuplicates(order) {
      PermutationNoDuplicates(order, sorted);
    }
  }
}
