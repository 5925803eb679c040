/**
 * A named transform of a film list and the left fold that applies a list of them.
 * The record's two fields are set once, by an initializer that rejects null values.
 */
module Operations {
  import opened Wrappers
  import opened Films

  /** An operation: a name for the menu and the function it applies to a film list. */
  datatype Operation = Operation(name: string, apply: seq<Film> -> seq<Film>)

  /** The value of an initializer argument: left out, `null`, or a given value. */
  datatype Init<T> = Omitted | Null | Given(value: T)

  datatype OperationError = NullName | NullApply

  /** An operation built with no initializer: empty name, identity function. */
  function DefaultOperation(): (op: Operation)
    ensures op.name == ""
    ensures forall films :: op.apply(films) == films
  {
    Operation("", films => films)
  }

  /**
   * `new Operation { Name = name, Apply = apply }`: the initializers run in that order and
   * each rejects `null`; an omitted one keeps its default.
   */
  function NewOperation(name: Init<string>, apply: Init<seq<Film> -> seq<Film>>)
    : (r: Result<Operation, OperationError>)
    ensures r == Err(NullName) <==> name.Null?
    ensures r == Err(NullApply) <==> !name.Null? && apply.Null?
    ensures r.Ok? ==> r.value.name == (if name.Given? then name.value else "")
    ensures r.Ok? && apply.Given? ==> forall films :: r.value.apply(films) == apply.value(films)
    ensures r.Ok? && apply.Omitted? ==> forall films :: r.value.apply(films) == films
  {
    match name
    case Null => Err(NullName)
    case Omitted => InitApply(DefaultOperation().name, apply)
    case Given(n) => InitApply(n, apply)
  }

  /** The `Apply` initializer, run after the name is set. */
  function InitApply(name: string, apply: Init<seq<Film> -> seq<Film>>): Result<Operation, OperationError> {
    match apply
    case Null => Err(NullApply)
    case Omitted => Ok(Operation(name, DefaultOperation().apply))
    case Given(f) => Ok(Operation(name, f))
  }

  /** `operations.Aggregate(films, (current, op) => op.Apply(current))`. */
  function ApplyAll(operations: seq<Operation>, films: seq<Film>): (r: seq<Film>)
    ensures operations == [] ==> r == films
  {
    if operations == [] then films else ApplyAll(operations[1..], operations[0].apply(films))
  }

  /** Appending an operation applies it to the result of the earlier ones. */
  lemma {:induction false} ApplyAllAppend(operations: seq<Operation>, op: Operation, films: seq<Film>)
    ensures ApplyAll(operations + [op], films) == op.apply(ApplyAll(operations, films))
  {
    if operations != [] {
      assert (operations + [op])[1..] == operations[1..] + [op];
      ApplyAllAppend(operations[1..], op, operations[0].apply(films));
    }
  }

  /** The fold over a concatenation is the second fold applied to the first one's result. */
  lemma {:induction false} ApplyAllConcat(first: seq<Operation>, second: seq<Operation>, films: seq<Film>)
    ensures ApplyAll(first + second, films) == ApplyAll(second, ApplyAll(first, films))
  {
    if first == [] {
      assert first + second == second;
    } else {
      assert (first + second)[1..] == first[1..] + second;
      ApplyAllConcat(first[1..], second, first[0].apply(films));
    }
  }

  /** An operation that only ever keeps some of the films it is given. */
  ghost predicate Shrinking(op: Operation) {
    forall films :: multiset(op.apply(films)) <= multiset(films)
  }

  /** Operations that only keep films, folded together, only keep films. */
  lemma {:induction false} ApplyAllShrinking(operations: seq<Operation>, films: seq<Film>)
    requires forall i :: 0 <= i < |operations| ==> Shrinking(operations[i])
    ensures multiset(ApplyAll(operations, films)) <= multiset(films)
  {
    if operations != [] {
      assert Shrinking(operations[0]);
      ApplyAllShrinking(operations[1..], operations[0].apply(films));
    }
  }
}
