/** Identifiers and the optional-value wrapper every other module uses. */
module Base {

  /** Auto-increment row identifiers start at 1; PHP's `(int)` cast of a missing
      or non-numeric id gives 0, which no row carries. */
  type Id = nat

  datatype Option<+T> = None | Some(value: T) {
    function GetOr(default: T): T {
      match this
      case Some(v) => v
      case None => default
    }
  }

  /** The larger of two reals (PHP and JavaScript `max`). */
  function Max(a: real, b: real): (r: real)
    ensures r >= a && r >= b
    ensures r == a || r == b
  {
    if a >= b then a else b
  }

  /** The smaller of two reals (PHP and JavaScript `min`). */
  function Min(a: real, b: real): (r: real)
    ensures r <= a && r <= b
    ensures r == a || r == b
  {
    if a <= b then a else b
  }
}
