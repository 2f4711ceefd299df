/** Failure-compatible result types shared by the whole pipeline.
    Every Python exception that the modelled code can raise becomes one
    constructor of `Error`; a function that may raise returns a `Result`. */
module Wrappers {

  datatype Option<+T> = None | Some(value: T)

  /** The exceptions raised by the modelled code. */
  datatype Error =
    | KeyError(key: string)                        // dict / table lookup of a missing key
    | IndexError                                   // `all_res_entries[0]` on an empty list
    | ZeroDivision                                 // mean of an empty score list
    | NotImplemented(what: string)                 // unknown task name or precision
    | AssertionFailed(message: string)             // a failed `assert`
    | Inconsistent(model: string, scenario: string, score: real)  // ValueError of the duplicate check
    | DuplicateEntries                                            // ValueError of the pivot
    | TypeError(what: string)                                     // `os.path.join` given None

  datatype Result<+T> = Ok(value: T) | Err(error: Error) {
    predicate IsFailure() {
      Err?
    }

    function PropagateFailure<U>(): Result<U>
      requires Err?
    {
      Err(error)
    }

    function Extract(): T
      requires Ok?
    {
      value
    }
  }
}
