/** The two ways a conversion step can end without a value: the exceptions the
    converter throws or lets through, and an absent optional reference. */
module Results {

  /** The failures a conversion can end with. */
  datatype Error =
    | IllegalArgument(message: string)  // a portable matrix of the wrong shape
    | ClassCast                         // a stream unit of another kind than the one expected
    | EndOfStream                       // the stream ended before the expected unit

  /** A value, or the exception that stopped its computation. */
  datatype Result<+T> = Ok(value: T) | Err(error: Error) {
    predicate IsFailure() { Err? }

    function PropagateFailure<U>(): Result<U>
      requires Err?
    {
      Err(error)
    }

    function Extract(): T
      requires Ok?
    {
      value
    }
  }

  /** A possibly null reference. */
  datatype Option<+T> = None | Some(value: T)
}
