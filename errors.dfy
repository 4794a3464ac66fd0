/** Failure values shared by the forecasting pipeline. Each error kind stands for one
    family of exceptions the Python code raises and lets propagate. */
module Errors {

  datatype Error =
    | InvalidDateFormat    // ValueError from datetime.strptime
    | DateOutOfRange       // OverflowError from timedelta or date arithmetic
    | ShapeMismatch        // ValueError / IndexError from numpy reshape, vstack or indexing
    | EmptyTable           // IndexError when the sample table has no row
    | InsufficientHistory  // too few values: IndexError of numpy reshape on an empty window
                           // array, or ValueError from sklearn when no sample is left to fit
    | MissingCountry       // abort(422) in the RNN constructor

  datatype Option<+T> = None | Some(value: T)

  datatype Result<+T> = Ok(value: T) | Err(error: Error) {
    predicate IsFailure() { Err? }

    function PropagateFailure<U>(): Result<U>
      requires Err?
    {
      Err(error)
    }

    function Extract(): T
      requires Ok?
    {
      value
    }
  }
}
