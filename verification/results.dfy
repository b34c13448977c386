/** Failure-compatible results for the operations of the task VAE and its training
    script: every exception the Python code can raise on the modelled paths becomes
    an `Err` carrying one of the `Error` kinds below. */
module Results {

  /** The exceptions the modelled code can raise, named after their cause. */
  datatype Error =
    | UnknownActivation(name: string) // ValueError: activation is neither "relu" nor "tanh"
    | EmptyHiddens                    // AssertionError: build_sequential given no hidden widths
    | IndexOutOfRange                 // IndexError: hiddens[0] of an empty list, or too many indices
    | ShapeMismatch                   // RuntimeError from torch.cat or from a layer's width check
    | UnboundPrediction               // UnboundLocalError: the decoder never bound obs_pred
    | ZeroDivision                    // ZeroDivisionError: `%` or `/` by zero
    | EmptyStatistics                 // ValueError: min or max of the statistics of an empty list

  datatype Result<+T> = Ok(value: T) | Err(error: Error) {

    predicate IsFailure() {
      Err?
    }

    function PropagateFailure<U>(): Result<U>
      requires Err?
    {
      Err(error)
    }

    function Extract(): T
      requires Ok?
    {
      value
    }
  }

  datatype Option<+T> = None | Some(value: T)
}
