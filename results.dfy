/** The tiler's error kinds and the result types its operations return
    (src/lib.rs:6-20). */
module Results {

  /** The variants of `TilingError`; the payloads of the wrapped library
      errors are dropped. `ArithmeticOverflow` is not a variant of the
      library's enum: it stands for the panic a debug build raises when a
      u32 subtraction, addition or multiplication leaves the u32 range. */
  datatype TilingError =
    | UnsupportedSourceImage(reason: string)
    | UnexpectedError
    | ImageError
    | IOError
    | IncorrectRGBInputDimensions
    | ArithmeticOverflow

  /** `DZIResult<T>`, usable with `:-`. */
  datatype Result<+T> = Ok(value: T) | Err(error: TilingError) {
    predicate IsFailure() {
      Err?
    }

    function PropagateFailure<U>(): Result<U>
      requires Err?
    {
      Err(error)
    }

    function Extract(): T
      requires Ok?
    {
      value
    }
  }

  datatype Option<+T> = None | Some(value: T)
}
