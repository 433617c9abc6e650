/** The optional value every nullable column and pointer of the service is read as. */
module Options {
  datatype Option<+T> = None | Some(value: T)

  /** SQL's two-argument COALESCE: keep the first value that is not null. */
  function Coalesce<T>(stored: Option<T>, incoming: Option<T>): Option<T> {
    if stored.Some? then stored else incoming
  }
}
