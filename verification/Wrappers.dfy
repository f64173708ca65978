/** The outcome types shared by the models of the Python and the C++ parts. */
module Wrappers {

  /** A Python `None` or a C++ null pointer against a present value. */
  datatype Option<+T> = None | Some(value: T)

  /** The Python exceptions the modelled code can raise. */
  datatype Error =
    | IndexError
    | ValueError
    | TypeError
    | AttributeError
    | Refused      // the `raise Exception(...)` statements of the parser

  datatype Result<+T> = Ok(value: T) | Raise(error: Error) {
    predicate IsFailure() {
      Raise?
    }

    function PropagateFailure<U>(): Result<U>
      requires Raise?
    {
      Raise(error)
    }

    function Extract(): T
      requires Ok?
    {
      value
    }
  }
}
