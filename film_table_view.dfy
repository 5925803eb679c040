/**
 * The paged film table: a scroll offset over the list produced by the current operations,
 * a five-film window, and the key presses that scroll, add a filter or a sort, or delete an
 * operation. Key presses are a sequence of events; the session ends at Esc, at an escaping
 * error, or when the events run out.
 */
module FilmTableView {
  import opened Wrappers
  import opened Films
  import opened Transforms
  import opened Operations
  import opened FilterManager
  import opened SortManager
  import opened OperationManager

  const PageSize: nat := 5

  function Min(a: int, b: int): int { if a <= b then a else b }

  function Max(a: int, b: int): int { if a <= b then b else a }

  /** The largest offset scrolling down can reach in a list of `total` films. */
  function MaxOffset(total: int): int { Max(0, total - PageSize) }

  /** `films.Skip(offset).Take(PageSize)`. */
  function VisibleFilms(films: seq<Film>, offset: int): (page: seq<Film>)
    ensures |page| == Min(PageSize, |films| - Min(Max(offset, 0), |films|))
    ensures forall k :: 0 <= k < |page| ==> page[k] == films[Min(Max(offset, 0), |films|) + k]
  {
    var start := Min(Max(offset, 0), |films|);
    films[start..Min(start + PageSize, |films|)]
  }

  /** `ScrollUp`: one film back, unless already at the top. */
  function ScrolledUp(offset: int): int {
    if offset > 0 then offset - 1 else offset
  }

  /** `ScrollDown`: one film on, while fewer than a page's worth of films lie below. */
  function ScrolledDown(offset: int, total: int): int {
    if offset < total - PageSize then offset + 1 else offset
  }

  /** Scrolling keeps the offset between the top and the last full page. */
  lemma ScrollingStaysInRange(offset: int, total: int)
    requires 0 <= offset <= MaxOffset(total)
    ensures 0 <= ScrolledUp(offset) <= MaxOffset(total)
    ensures 0 <= ScrolledDown(offset, total) <= MaxOffset(total)
  {
  }

  /** A step down that moved is undone by a step up, and a step up by a step down. */
  lemma ScrollingInverse(offset: int, total: int)
    requires 0 <= offset <= MaxOffset(total)
    ensures ScrolledDown(offset, total) != offset ==> ScrolledUp(ScrolledDown(offset, total)) == offset
    ensures ScrolledUp(offset) != offset ==> ScrolledDown(ScrolledUp(offset), total) == offset
  {
  }

  /** At an offset in range the page is full: five films, or all of them when fewer. */
  lemma PageIsFull(films: seq<Film>, offset: int)
    requires 0 <= offset <= MaxOffset(|films|)
    ensures |VisibleFilms(films, offset)| == Min(PageSize, |films|)
  {
  }

  /** Every film of the list is on the page of some offset that scrolling can reach. */
  lemma EveryFilmReachable(films: seq<Film>, k: nat)
    requires k < |films|
    ensures var offset := Min(k, MaxOffset(|films|));
      0 <= offset <= MaxOffset(|films|) &&
      0 <= k - offset < |VisibleFilms(films, offset)| && VisibleFilms(films, offset)[k - offset] == films[k]
  {
  }

  datatype FilterKind = ByGenre | ByRating

  /**
   * A key press with the menu choices it leads to: F with the filter kind and option,
   * S with the sort option, D with the menu position chosen (None for "Отмена").
   */
  datatype TableKey =
    | UpArrow
    | DownArrow
    | FilterKey(kind: FilterKind, selected: string)
    | SortKey(option: SortOption)
    | DeleteKey(choice: Option<nat>)
    | Escape
    | OtherKey

  datatype KeyResult = Continue | Exit | Failed(error: ManagerError)

  /** What the view keeps between key presses: its offset and its operations. */
  datatype ViewState = ViewState(offset: int, operations: seq<Operation>)

  datatype Reaction = Reaction(state: ViewState, result: KeyResult)

  /** The filter the F key builds from the films on screen. */
  function CreateFilter(kind: FilterKind, films: seq<Film>, selected: string): Result<Operation, FilterError> {
    match kind
    case ByGenre => CreateGenreFilter(Some(films), selected)
    case ByRating => CreateRatingFilter(Some(films), selected)
  }

  /**
   * `HandleUserInput` on the films on screen. A filter that cannot be built is reported
   * and changes nothing; a deletion resets the offset even when nothing is deleted; an
   * index the operation list rejects escapes as an error.
   */
  function HandleKey(s: ViewState, films: seq<Film>, key: TableKey): (r: Reaction)
    ensures r.result == Exit <==> key == Escape
    ensures r.result.Failed? ==> key.DeleteKey? && r.state == s
    ensures key == Escape || key == OtherKey || (key.FilterKey? && films == []) ==> r.state == s
    ensures key.UpArrow? || key.DownArrow? ==> r.state.operations == s.operations
    ensures key.FilterKey? && films != [] ==>
      r.state.offset == 0 && r.state.operations == s.operations + [CreateFilter(key.kind, films, key.selected).value]
    ensures key.SortKey? ==> r.state == ViewState(0, s.operations + [CreateSortingOperation(key.option)])
    ensures key.DeleteKey? && key.choice.Some? && key.choice.value < |s.operations| ==>
      r == Reaction(ViewState(0, RemoveAt(s.operations, key.choice.value)), Continue)
    ensures key.DeleteKey? && (s.operations == [] || key.choice.None?) ==>
      r == Reaction(s.(offset := 0), Continue)
    ensures key.DeleteKey? && s.operations != [] && key.choice.Some? && key.choice.value >= |s.operations| ==>
      r == Reaction(s, Failed(IndexOutOfRange))
  {
    match key
    case UpArrow => Reaction(s.(offset := ScrolledUp(s.offset)), Continue)
    case DownArrow => Reaction(s.(offset := ScrolledDown(s.offset, |films|)), Continue)
    case FilterKey(kind, selected) =>
      var created := CreateFilter(kind, films, selected);
      if created.Ok? then Reaction(ViewState(0, s.operations + [created.value]), Continue)
      else Reaction(s, Continue)
    case SortKey(option) => Reaction(ViewState(0, s.operations + [CreateSortingOperation(option)]), Continue)
    case DeleteKey(choice) =>
      if s.operations == [] || choice.None? then Reaction(s.(offset := 0), Continue)
      else if choice.value < |s.operations| then
        Reaction(ViewState(0, RemoveAt(s.operations, choice.value)), Continue)
      else Reaction(s, Failed(IndexOutOfRange))
    case Escape => Reaction(s, Exit)
    case OtherKey => Reaction(s, Continue)
  }

  /** The film list on screen in state `s`. */
  function Shown(s: ViewState, films: seq<Film>): seq<Film> {
    ApplyAll(s.operations, films)
  }

  /** The offset lies between the top and the last full page of the list on screen. */
  ghost predicate InRange(s: ViewState, films: seq<Film>) {
    0 <= s.offset <= MaxOffset(|Shown(s, films)|)
  }

  /** Every key press keeps the offset in range of the list it then shows. */
  lemma HandleKeyInRange(s: ViewState, films: seq<Film>, key: TableKey)
    requires InRange(s, films)
    ensures InRange(HandleKey(s, Shown(s, films), key).state, films)
  {
    if key.UpArrow? || key.DownArrow? {
      ScrollingStaysInRange(s.offset, |Shown(s, films)|);
    }
  }

  /** A session: the state at its end, the states in which a page was shown, and how it ended. */
  datatype Session = Session(state: ViewState, visited: seq<ViewState>, outcome: Outcome<ManagerError>)

  /**
   * `Render` on a non-null list: show the page of the current state, then handle the next
   * key on the list shown, until Esc, an escaping error or the end of the events.
   */
  function Run(s: ViewState, films: seq<Film>, keys: seq<TableKey>): (r: Session)
    ensures |r.visited| >= 1 && r.visited[0] == s
    ensures |r.visited| <= |keys| + 1
    decreases |keys|
  {
    if keys == [] then Session(s, [s], Pass)
    else
      var reaction := HandleKey(s, Shown(s, films), keys[0]);
      match reaction.result
      case Exit => Session(reaction.state, [s], Pass)
      case Failed(e) => Session(reaction.state, [s], Fail(e))
      case Continue =>
        var rest := Run(reaction.state, films, keys[1..]);
        Session(rest.state, [s] + rest.visited, rest.outcome)
  }

  /** One step of a session: the first key decides whether and from which state it goes on. */
  lemma RunStep(s: ViewState, films: seq<Film>, keys: seq<TableKey>)
    requires keys != []
    ensures var reaction := HandleKey(s, Shown(s, films), keys[0]);
      var r := Run(s, films, keys);
      && (reaction.result == Exit ==> r == Session(reaction.state, [s], Pass))
      && (reaction.result.Failed? ==> r == Session(reaction.state, [s], Fail(reaction.result.error)))
      && (reaction.result == Continue ==>
            var rest := Run(reaction.state, films, keys[1..]);
            r == Session(rest.state, [s] + rest.visited, rest.outcome))
  {
  }

  /** A session resumed after the states already shown. */
  function Resume(seen: seq<ViewState>, rest: Session): Session {
    Session(rest.state, seen + rest.visited, rest.outcome)
  }

  /** One step of a session resumed after `seen`: the state shown joins `seen`. */
  lemma ResumeStep(seen: seq<ViewState>, s: ViewState, films: seq<Film>, keys: seq<TableKey>)
    requires keys != []
    ensures var reaction := HandleKey(s, Shown(s, films), keys[0]);
      var r := Resume(seen, Run(s, films, keys));
      && (reaction.result == Exit ==> r == Session(reaction.state, seen + [s], Pass))
      && (reaction.result.Failed? ==> r == Session(reaction.state, seen + [s], Fail(reaction.result.error)))
      && (reaction.result == Continue ==> r == Resume(seen + [s], Run(reaction.state, films, keys[1..])))
  {
    RunStep(s, films, keys);
    var reaction := HandleKey(s, Shown(s, films), keys[0]);
    if reaction.result == Continue {
      var rest := Run(reaction.state, films, keys[1..]);
      assert seen + ([s] + rest.visited) == (seen + [s]) + rest.visited;
    }
  }

  /** From an offset in range, every page shown in a session is full and the offset stays in range. */
  lemma {:induction false} RunInRange(s: ViewState, films: seq<Film>, keys: seq<TableKey>)
    requires InRange(s, films)
    ensures InRange(Run(s, films, keys).state, films)
    ensures forall k :: 0 <= k < |Run(s, films, keys).visited| ==> InRange(Run(s, films, keys).visited[k], films)
    ensures forall k :: 0 <= k < |Run(s, films, keys).visited| ==>
      var v := Run(s, films, keys).visited[k];
      |VisibleFilms(Shown(v, films), v.offset)| == Min(PageSize, |Shown(v, films)|)
    decreases |keys|
  {
    var r := Run(s, films, keys);
    if keys != [] {
      HandleKeyInRange(s, films, keys[0]);
      var reaction := HandleKey(s, Shown(s, films), keys[0]);
      if reaction.result == Continue {
        RunInRange(reaction.state, films, keys[1..]);
      }
    }
    forall k | 0 <= k < |r.visited|
      ensures |VisibleFilms(Shown(r.visited[k], films), r.visited[k].offset)| == Min(PageSize, |Shown(r.visited[k], films)|)
    {
      PageIsFull(Shown(r.visited[k], films), r.visited[k].offset);
    }
  }

  /** Esc ends the session at once, whatever follows it. */
  lemma EscapeEnds(s: ViewState, films: seq<Film>, rest: seq<TableKey>)
    ensures Run(s, films, [Escape] + rest) == Session(s, [s], Pass)
  {
  }

  /** An unrecognised key changes nothing; the session goes on as without it. */
  lemma OtherKeyIgnored(s: ViewState, films: seq<Film>, rest: seq<TableKey>)
    ensures Run(s, films, [OtherKey] + rest).state == Run(s, films, rest).state
    ensures Run(s, films, [OtherKey] + rest).visited == [s] + Run(s, films, rest).visited
  {
    assert ([OtherKey] + rest)[1..] == rest;
  }

  class FilmTableView {
    var offset: int
    const manager: OperationManager

    /** A new view shows the first page with no operations. */
    constructor()
      ensures offset == 0 && fresh(manager) && manager.operations == []
    {
      offset := 0;
      manager := new OperationManager();
    }

    function State(): ViewState
      reads this, manager
    {
      ViewState(offset, manager.operations)
    }

    method ScrollUp()
      modifies this
      ensures offset == ScrolledUp(old(offset))
    {
      if offset > 0 {
        offset := offset - 1;
      }
    }

    method ScrollDown(totalFilms: int)
      modifies this
      ensures offset == ScrolledDown(old(offset), totalFilms)
    {
      if offset < totalFilms - PageSize {
        offset := offset + 1;
      }
    }

    method ResetOffset()
      modifies this
      ensures offset == 0
    {
      offset := 0;
    }

    /** F: add the chosen filter and go back to the top; a filter that fails is only reported. */
    method ApplyFilterOperation(films: seq<Film>, kind: FilterKind, selected: string)
      modifies this, manager
      ensures State() == HandleKey(old(State()), films, FilterKey(kind, selected)).state
    {
      var created := CreateFilter(kind, films, selected);
      if created.Ok? {
        var _ := manager.AddOperation(Some(created.value));
        ResetOffset();
      }
    }

    /** S: add the chosen sort and go back to the top. */
    method ApplySortingOperation(option: SortOption)
      modifies this, manager
      ensures State() == HandleKey(old(State()), [], SortKey(option)).state
    {
      var _ := manager.AddOperation(Some(CreateSortingOperation(option)));
      ResetOffset();
    }

    /**
     * D: with operations present and one chosen, delete it; then go back to the top. An
     * index the list rejects escapes before the reset.
     */
    method RemoveOperation(choice: Option<nat>) returns (result: KeyResult)
      modifies this, manager
      ensures Reaction(State(), result) == HandleKey(old(State()), [], DeleteKey(choice))
    {
      if |manager.GetOperations()| != 0 && choice.Some? {
        var removed := manager.RemoveOperation(choice.value);
        if removed.Fail? {
          return Failed(removed.error);
        }
      }
      ResetOffset();
      return Continue;
    }

    method HandleUserInput(films: seq<Film>, key: TableKey) returns (result: KeyResult)
      modifies this, manager
      ensures Reaction(State(), result) == HandleKey(old(State()), films, key)
    {
      match key
      case UpArrow =>
        ScrollUp();
        result := Continue;
      case DownArrow =>
        ScrollDown(|films|);
        result := Continue;
      case FilterKey(kind, selected) =>
        ApplyFilterOperation(films, kind, selected);
        result := Continue;
      case SortKey(option) =>
        ApplySortingOperation(option);
        result := Continue;
      case DeleteKey(choice) =>
        result := RemoveOperation(choice);
      case Escape =>
        result := Exit;
      case OtherKey =>
        result := Continue;
    }

    /**
     * Shows the page of the current list, handles the next key, and repeats. A null list
     * is rejected before anything changes.
     */
    method Render(films: Option<seq<Film>>, keys: seq<TableKey>) returns (r: Outcome<ManagerError>, pages: seq<seq<Film>>)
      modifies this, manager
      ensures films.None? ==> r == Fail(ManagerError.NullFilms) && pages == [] && State() == old(State())
      ensures films.Some? ==>
        var run := Run(old(State()), films.value, keys);
        State() == run.state && r == run.outcome && |pages| == |run.visited| &&
        forall k :: 0 <= k < |pages| ==>
          pages[k] == VisibleFilms(Shown(run.visited[k], films.value), run.visited[k].offset)
    {
      if films.None? {
        return Fail(ManagerError.NullFilms), [];
      }
      var fs := films.value;
      ghost var run := Run(State(), fs, keys);
      ghost var visited: seq<ViewState> := [];
      pages := [];
      var i := 0;
      assert run == Resume(visited, Run(State(), fs, keys[i..])) by { assert keys[i..] == keys; }
      while true
        invariant 0 <= i <= |keys|
        invariant run == Resume(visited, Run(State(), fs, keys[i..]))
        invariant |pages| == |visited|
        invariant forall k :: 0 <= k < |pages| ==> pages[k] == VisibleFilms(Shown(visited[k], fs), visited[k].offset)
        decreases |keys| - i
      {
        ghost var before := State();
        ghost var seen := visited;
        var filtered := manager.ApplyOperations(films).value;
        pages := pages + [VisibleFilms(filtered, offset)];
        visited := visited + [before];
        if i == |keys| {
          assert keys[i..] == [];
          return Pass, pages;
        }
        var result := HandleUserInput(filtered, keys[i]);
        ResumeStep(seen, before, fs, keys[i..]);
        assert keys[i..][1..] == keys[i + 1..];
        match result
        case Exit =>
          return Pass, pages;
        case Failed(e) =>
          return Fail(e), pages;
        case Continue =>
          i := i + 1;
      }
    }
  }
}
