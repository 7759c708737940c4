/** Option and Result types shared by every module of the model. */
module Wrappers {

  /** A cell or value that may be missing (`None` stands for pandas' NaN / Python's None). */
  datatype Option<+T> = None | Some(value: T)

  /** The exceptions the modelled Python code raises, by kind. */
  datatype Error =
    | NameError       // a name read before it was ever bound
    | AttributeError  // a string method called on a missing (NaN) cell
    | KeyError        // a row label or mapping key that is not there
    | ValueError      // a failed parse, an unpacking of too few items, mismatched shapes
    | IndexError      // positional access past the end of a frame
    | RuntimeError    // raised explicitly by the code
    | EnlargedFrame   // pandas grew the frame with a row of missing values (not represented)

  /** The outcome of an operation that may raise. */
  datatype Result<+T> = Ok(value: T) | Err(error: Error)
}
