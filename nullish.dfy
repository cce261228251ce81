/** JavaScript's `undefined`/`null` and thrown errors, as values.

    `Option` stands for a value that may be `undefined` (or `null`), and
    `Coalesce` is the `??` operator: it falls through ONLY on an absent value,
    so the empty string counts as present. `Result` stands for a computation
    that either returns a value or throws an `Error` carrying a message.
 */
module Nullish {

  datatype Option<+T> = None | Some(value: T)

  datatype Result<+T> = Ok(value: T) | Err(message: string)

  /** `a ?? b`: `a` whenever it is defined, whatever its value; `b` otherwise. */
  function Coalesce<T>(a: Option<T>, b: T): (r: T)
    ensures a.Some? ==> r == a.value
    ensures a.None? ==> r == b
  {
    match a
    case Some(v) => v
    case None => b
  }
}
