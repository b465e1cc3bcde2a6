/** Optional values and the outcome of an operation that may refuse its input. */
module Results {

  datatype Option<+T> = None | Some(value: T)

  /** `Err` carries no reason: the models decide acceptance, not wording. */
  datatype Result<+T> = Ok(value: T) | Err {

    predicate IsFailure() {
      Err?
    }

    function PropagateFailure<U>(): Result<U>
      requires Err?
    {
      Err
    }

    function Extract(): T
      requires Ok?
    {
      value
    }
  }
}
