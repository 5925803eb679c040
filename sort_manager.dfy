/** Creation of the rating sort operation for the selected option of the sort menu. */
module SortManager {
  import opened Sequences
  import opened Films
  import opened Transforms
  import opened Operations

  /** The keys of the sort menu, in the order they are offered. */
  const SortingOptions: seq<SortOption> := [Unsorted, Descending, Ascending]

  /** The menu offers each of the three options once, under three different labels. */
  lemma SortingOptionsComplete()
    ensures |SortingOptions| == 3
    ensures forall o: SortOption :: o in SortingOptions
    ensures forall i, j :: 0 <= i < j < |SortingOptions| ==> Label(SortingOptions[i]) != Label(SortingOptions[j])
  {
    assert Label(Unsorted)[1] != Label(Descending)[1];
    assert Label(Unsorted)[1] != Label(Ascending)[1];
    assert Label(Descending)[3] != Label(Ascending)[3];
    forall o: SortOption ensures o in SortingOptions {
      match o
      case Unsorted => assert SortingOptions[0] == o;
      case Descending => assert SortingOptions[1] == o;
      case Ascending => assert SortingOptions[2] == o;
    }
  }

  /** The operation is named by the option's label and applies the matching sort. */
  function CreateSortingOperation(option: SortOption): (op: Operation)
    ensures op.name == Label(option)
    ensures forall films :: op.apply(films) == SortFilms(option, films)
  {
    NewOperation(Given(Label(option)), Given(films => SortFilms(option, films))).value
  }

  /** A sort operation keeps exactly the films it is given. */
  lemma SortingOperationPermutes(option: SortOption, films: seq<Film>)
    ensures multiset(CreateSortingOperation(option).apply(films)) == multiset(films)
    ensures Shrinking(CreateSortingOperation(option))
  {
  }
}
