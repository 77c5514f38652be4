/** Outcomes of the analysis steps that can fail. */
module Outcomes {

  /** Why an analysis step cannot produce a value. */
  datatype AnalysisError =
    /** The grid shift reads the second coordinate `x[1]`, which a sample
        file of `count` < 2 lines does not have. */
    | SecondCoordinateMissing(count: nat)

  /** A value, or the error that stopped its computation. */
  datatype Result<T> = Ok(value: T) | Err(error: AnalysisError)
}
