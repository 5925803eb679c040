/**
 * The in-memory film store: a dictionary from id to film and the counter that hands out
 * ids. The contracts the `IFilmManager` interface documents are carried by the methods of
 * the one class that implements it.
 */
module FilmManager {
  import opened Wrappers
  import opened Sequences
  import opened Films

  /** `KeyNotFoundException`: no film is stored under the id. */
  datatype StoreError = KeyNotFound

  /** Each stored film carries its own key as its id, and every key is below the counter. */
  ghost predicate WellKeyed(films: map<int, Film>, index: int) {
    forall id :: id in films ==> films[id].id == id && 0 <= id < index
  }

  /** The stored films of a listing: no two with the same id. */
  ghost predicate DistinctIds(s: seq<Film>) {
    forall i, j :: 0 <= i < j < |s| ==> s[i].id != s[j].id
  }

  /** A list holds exactly the films of the store, each once. */
  ghost predicate ListsStore(s: seq<Film>, films: map<int, Film>) {
    && |s| == |films|
    && (forall i :: 0 <= i < |s| ==> s[i].id in films && films[s[i].id] == s[i])
    && (forall id :: id in films ==> films[id] in s)
    && DistinctIds(s)
  }

  /** Films with different ids are different films, so a listing has no repeats. */
  lemma DistinctIdsNoDuplicates(s: seq<Film>)
    requires DistinctIds(s)
    ensures NoDuplicates(s)
  {
    forall i, j | 0 <= i < j < |s| ensures s[i] != s[j] {
      assert s[i].id != s[j].id;
    }
  }

  /**
   * In a store whose films carry their keys, a list of its films without repeats has
   * no two films with the same id.
   */
  lemma NoDuplicatesDistinctIds(s: seq<Film>, films: map<int, Film>)
    requires NoDuplicates(s)
    requires forall i :: 0 <= i < |s| ==> s[i].id in films && films[s[i].id] == s[i]
    ensures DistinctIds(s)
  {
    forall i, j | 0 <= i < j < |s| ensures s[i].id != s[j].id {
      assert s[i] != s[j];
    }
  }

  /** A rearrangement of a listing of the store is a listing of the store. */
  lemma PermutationListsStore(a: seq<Film>, b: seq<Film>, films: map<int, Film>)
    requires ListsStore(a, films) && multiset(a) == multiset(b)
    ensures ListsStore(b, films)
  {
    assert |b| == |multiset(b)| == |multiset(a)| == |a|;
    forall i | 0 <= i < |b| ensures b[i].id in films && films[b[i].id] == b[i] {
      assert b[i] in multiset(b);
      assert b[i] in a;
    }
    forall id | id in films ensures films[id] in b {
      assert films[id] in multiset(a);
    }
    DistinctIdsNoDuplicates(a);
    PermutationNoDuplicates(a, b);
    NoDuplicatesDistinctIds(b, films);
  }

  class InMemoryFilmManager {
    /** `_films`: the stored films by id. */
    var films: map<int, Film>
    /** `_index`: the id the next added film gets. */
    var index: int

    ghost predicate Valid()
      reads this
    {
      WellKeyed(films, index) && index >= 0
    }

    constructor()
      ensures films == map[] && index == 0
      ensures Valid()
    {
      films := map[];
      index := 0;
    }

    /**
     * Stores the film under the counter, with its id overwritten by that counter, and
     * moves the counter on: the new id is fresh and above every id handed out before.
     */
    method AddFilm(film: Film) returns (id: int)
      requires Valid()
      modifies this
      ensures Valid()
      ensures id == old(index) && index == old(index) + 1
      ensures films == old(films)[id := film.(id := id)]
      ensures id !in old(films) && forall k :: k in old(films) ==> k < id
    {
      id := index;
      films := films[id := film.(id := id)];
      index := index + 1;
    }

    /** Replaces the entry under `film.id`; an id that is not stored is rejected. */
    method EditFilm(film: Film) returns (r: Outcome<StoreError>)
      requires Valid()
      modifies this
      ensures Valid()
      ensures old(film.id !in films) ==> r == Fail(KeyNotFound) && films == old(films)
      ensures old(film.id in films) ==> r == Pass && films == old(films)[film.id := film]
      ensures index == old(index)
    {
      if !IsIdExist(film.id) {
        return Fail(KeyNotFound);
      }
      films := films[film.id := film];
      return Pass;
    }

    /** Removes the entry under `id`; an id that is not stored is rejected. */
    method DeleteFilm(id: int) returns (r: Outcome<StoreError>)
      requires Valid()
      modifies this
      ensures Valid()
      ensures old(id !in films) ==> r == Fail(KeyNotFound) && films == old(films)
      ensures old(id in films) ==> r == Pass && films == old(films) - {id}
      ensures index == old(index)
    {
      if !IsIdExist(id) {
        return Fail(KeyNotFound);
      }
      films := films - {id};
      return Pass;
    }

    function IsIdExist(id: int): (r: bool)
      reads this
      ensures r <==> id in films
    {
      id in films
    }

    /** The film stored under `id`, or `KeyNotFound`. */
    function GetFilm(id: int): (r: Result<Film, StoreError>)
      reads this
      ensures r.Ok? <==> id in films
      ensures r.Ok? ==> r.value == films[id]
      ensures r.Err? ==> r.error == KeyNotFound
      ensures Valid() && r.Ok? ==> r.value.id == id
    {
      if !IsIdExist(id) then Err(KeyNotFound) else Ok(films[id])
    }

    /**
     * `_films.Values`: every stored film once, in an order the dictionary does not
     * promise; here each step takes any key not yet listed.
     */
    method GetAllFilms() returns (all: seq<Film>)
      requires Valid()
      ensures ListsStore(all, films)
    {
      all := [];
      var rest := films.Keys;
      while rest != {}
        invariant rest <= films.Keys
        invariant |all| + |rest| == |films|
        invariant forall i :: 0 <= i < |all| ==> all[i].id in films && films[all[i].id] == all[i]
        invariant forall i :: 0 <= i < |all| ==> all[i].id !in rest
        invariant forall id :: id in films ==> id in rest || films[id] in all
        invariant DistinctIds(all)
        decreases |rest|
      {
        assert exists id :: id in rest by {
          if forall id :: id !in rest {
            assert false;
          }
        }
        var id :| id in rest;
        assert films[id].id == id;
        all := all + [films[id]];
        rest := rest - {id};
      }
      assert rest == {};
    }
  }
}
