/** JavaScript values the game logic inspects: a number that may be absent,
    and the truthiness test `if (v)` applied to it. */
module Values {

  /** A number that may be `undefined` or `null` (None). */
  datatype Option<T> = None | Some(value: T)

  /** `!!v` for a possibly-absent number: absent values and zero are falsy.
      (Reals have no NaN, the one other falsy number.) */
  predicate Truthy(v: Option<real>)
  {
    v.Some? && v.value != 0.0
  }
}
