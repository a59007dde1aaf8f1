/** Failure-compatible wrappers shared by the whole model. */
module Base {

  datatype Option<T> = None | Some(value: T)

  /** The ways a call can end without a table: the validator's own
      PolarsSchemaError, and the errors the dataframe engine raises while
      resolving or collecting a query plan. */
  datatype Error =
    | SchemaError
    | ColumnNotFound(name: string)
    | InvalidOperation
    | EngineRejects
    | DuplicateColumn

  datatype Result<T> = Ok(value: T) | Err(error: Error) {
    predicate IsFailure() { Err? }

    function PropagateFailure<U>(): Result<U>
      requires Err?
    {
      Err(error)
    }

    function Extract(): T
      requires Ok?
    {
      value
    }
  }

  /** The validator returns nothing on success and raises on failure. */
  datatype Outcome = Pass | Fail(error: Error)

  function Min(a: int, b: int): int { if a <= b then a else b }

  /** No element occurs twice. */
  predicate Distinct<T(==)>(xs: seq<T>) {
    forall i, j :: 0 <= i < j < |xs| ==> xs[i] != xs[j]
  }
}
