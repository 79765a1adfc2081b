/** The run-time failures of the source, which the model returns instead of throwing. */
module Outcomes {

  datatype Fault =
    | IndexOutOfBounds   // a list or array index past the end
    | DivisionByZero     // an integer `%` by a zero window length
    | NoSuchElement      // the average of an empty population
    | IllegalArgument    // a random index drawn below a bound of zero

  datatype Result<T> = Ok(value: T) | Err(fault: Fault)
}

/** The fixed parameters of one run. */
module Settings {

  /** Plus: parents compete with their offspring; Comma: only the offspring are selected from. */
  datatype Mode = Plus | Comma

  /** Dimension `n`, replacement mode, `mu` parents and `lambda` offspring per generation. */
  datatype Config = Config(n: nat, mode: Mode, mu: nat, lambda: nat)
}
