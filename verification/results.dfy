/** Option and Result values standing in for Rust's `Option<T>` and for the
    panics the random-number layer can raise. */
module Results {

  /** Rust's `Option<T>`. */
  datatype Option<+T> = None | Some(value: T)

  /** The panics the modelled code can raise. */
  datatype Panic =
    | CannotSampleEmptyRange   // rand's `gen_range` on `lo..hi` with `hi <= lo`
    | AddWithOverflow          // a checked `u8` addition that leaves the type

  /** The outcome of a call that either returns normally or panics. */
  datatype Result<+T> = Ok(value: T) | Err(error: Panic)
}
