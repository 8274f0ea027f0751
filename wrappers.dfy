/** Option and Result values for the Go `(value, error)` returns of the tracker. */
module Wrappers {

  datatype Option<+T> = None | Some(value: T)

  /** Either a computed value or the error the Go code returns in its place. */
  datatype Result<+T, +E> = Success(value: T) | Failure(error: E) {

    /** The `error` half of a Go `(value, error)` pair: None stands for `nil`. */
    function ErrorOf(): (e: Option<E>)
      ensures e.None? <==> Success?
      ensures Failure? ==> e == Some(error)
    {
      if Failure? then Some(error) else None
    }
  }
}
