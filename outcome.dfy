/** Optional values, results and the failures the engine reports. */
module Outcome {

  datatype Option<T> = None | Some(value: T)

  /** Why an evaluation was abandoned; each is a thrown error in the source. */
  datatype Failure =
    | UnknownClipStyle(style: string)       // ensure.unreachable on a clip string that is not a rect(...)
    | LengthExpected(expr: string)          // ensure.unreachable on a length without number+unit
    | NotANumber(expr: string)              // parseFloat gave NaN for the number part of a length
    | ClipNotApplied(message: string)       // ClipNotAppliedException of the clip-edge descriptor
    | UnknownPosition(name: string)         // a descriptor built for an edge name that is not an edge
    | UnrecognizedDimension(name: string)   // a visible size built for a dimension that is not width/height
    | AxisMismatch                          // subtracting positions that lie on different axes
    | TypeError(message: string)            // a property read on null or a call of a missing method
    | IncompatibleLengths                   // combining a pixel length with NoPixels, which the value objects refuse

  datatype Result<T> = Ok(value: T) | Err(error: Failure)
}
