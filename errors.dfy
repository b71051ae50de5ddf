/** Failures the script can raise, and the wrappers that carry them. */
module Errors {

  /** The exceptions the modelled part of the script can raise. */
  datatype Error =
    | NothingExtracted        // `extract` matched no time sample and returned None, so reading `units` fails
    | UnitsAssertion(units: string)  // the unit guard of the converter rejected these units
    | MissingAttribute(key: string)  // the cube has no attribute of this name
    | UnpackError(got: nat)   // the output name split into `got` pieces where exactly two are unpacked

  datatype Option<T> = None | Some(value: T)

  datatype Result<T> = Success(value: T) | Failure(error: Error)

  /** The outcome of a step that changes state and returns nothing else. */
  datatype Outcome = Pass | Fail(error: Error)
}
