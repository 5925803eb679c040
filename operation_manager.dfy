/** The ordered, mutable list of operations a table view applies to its films. */
module OperationManager {
  import opened Wrappers
  import opened Films
  import opened Operations

  datatype ManagerError = NullOperation | IndexOutOfRange | NullFilms

  /** The list with the element at `index` deleted (`List.RemoveAt`). */
  function RemoveAt<T>(s: seq<T>, index: nat): (r: seq<T>)
    requires index < |s|
    ensures |r| == |s| - 1
    ensures forall k :: 0 <= k < index ==> r[k] == s[k]
    ensures forall k :: index <= k < |r| ==> r[k] == s[k + 1]
  {
    s[..index] + s[index + 1..]
  }

  /** Appending an element and deleting it again gives back the list. */
  lemma RemoveAtAppended<T>(s: seq<T>, x: T)
    ensures RemoveAt(s + [x], |s|) == s
  {
    assert (s + [x])[..|s|] == s;
  }

  class OperationManager {
    var operations: seq<Operation>

    constructor()
      ensures operations == []
    {
      operations := [];
    }

    /** Appends `op`; a null operation is rejected and the list stays as it was. */
    method AddOperation(op: Option<Operation>) returns (r: Outcome<ManagerError>)
      modifies this
      ensures op.None? ==> r == Fail(NullOperation) && operations == old(operations)
      ensures op.Some? ==> r == Pass && operations == old(operations) + [op.value]
    {
      if op.None? {
        return Fail(NullOperation);
      }
      operations := operations + [op.value];
      return Pass;
    }

    /** Deletes the operation at `index`; an index outside the list is rejected. */
    method RemoveOperation(index: int) returns (r: Outcome<ManagerError>)
      modifies this
      ensures !(0 <= index < |old(operations)|) ==> r == Fail(IndexOutOfRange) && operations == old(operations)
      ensures 0 <= index < |old(operations)| ==> r == Pass && operations == RemoveAt(old(operations), index)
    {
      if index < 0 || index >= |operations| {
        return Fail(IndexOutOfRange);
      }
      operations := RemoveAt(operations, index);
      return Pass;
    }

    /** The operations in the order they were added. */
    function GetOperations(): (r: seq<Operation>)
      reads this
      ensures |r| == |operations| && forall k :: 0 <= k < |r| ==> r[k] == operations[k]
    {
      operations
    }

    /** The films after every operation in turn; a null list is rejected. Nothing changes. */
    function ApplyOperations(films: Option<seq<Film>>): (r: Result<seq<Film>, ManagerError>)
      reads this
      ensures films.None? <==> r == Err(NullFilms)
      ensures films.Some? ==> r == Ok(ApplyAll(operations, films.value))
    {
      match films
      case None => Err(NullFilms)
      case Some(fs) => Ok(ApplyAll(operations, fs))
    }
  }
}
