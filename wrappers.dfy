/** Option and Result types shared by the whole model. */
module Wrappers {

  datatype Option<+T> = None | Some(value: T)

  /** Python exceptions that the modelled code raises or catches. */
  datatype PyError =
    | IndexError          // `arr[0]` on an empty list
    | ZeroDivisionError   // caught by the de-identification driver around the pipeline
    | ValueError          // `math.log10` outside its domain
    | TypeError           // an operator applied to operands it does not support
    | CalledProcessError  // `subprocess.run(..., check=True)` with a non-zero exit status
    | ClassifierError     // any other failure raised inside the classifier
    | UnboundLocalError   // a local variable read before any assignment to it

  datatype Result<+T> = Success(value: T) | Failure(error: PyError)
}
