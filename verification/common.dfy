/** Small shared vocabulary: an optional value and the `Math.min`/`Math.max` of the script. */
module Common {

  datatype Option<T> = None | Some(value: T)

  /** The values held by an option, as a sequence of length 0 or 1. */
  function Elements<T>(o: Option<T>): seq<T>
  {
    match o
    case None => []
    case Some(v) => [v]
  }

  /** `Math.min` on exact reals (no NaN). */
  function Min(a: real, b: real): real
  {
    if a <= b then a else b
  }

  /** `Math.max` on exact reals (no NaN). */
  function Max(a: real, b: real): real
  {
    if a >= b then a else b
  }
}
