/** Result types of the resolver: Rust's `Option`, `Result`, and a wrapper that
    also records a panic (an `.unwrap()` on `None`). */
module Wrappers {

  datatype Option<T> = None | Some(value: T)

  /** Rust's `Result<T, E>`. */
  datatype Result<T, E> = Ok(value: T) | Err(error: E)

  /** What a call of a Rust function can come to: it returns a `Result`, or it
      panics before returning. */
  datatype Outcome<T, E> = Returned(result: Result<T, E>) | Panicked

  function Min(a: nat, b: nat): nat
  {
    if a <= b then a else b
  }
}
