/** Rust's `Option`, used for optional fields and for parsers whose error
    is thrown away. */
module Optional {

  datatype Option<T> = None | Some(value: T)

  /** The carried value, or `fallback` when there is none (Rust's
      `unwrap_or`). */
  function UnwrapOr<T>(o: Option<T>, fallback: T): (r: T)
    ensures o.Some? ==> r == o.value
    ensures o.None? ==> r == fallback
  {
    if o.Some? then o.value else fallback
  }
}
