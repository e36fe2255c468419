/** Floating-point values of a pandas series, with NaN made explicit.
    `None` stands for NaN (a missing or not-yet-defined value); `Some(x)`
    for an ordinary number. IEEE rounding is not modelled: numbers are reals. */
module NanReal {

  datatype Option<+T> = None | Some(value: T)

  type Num = Option<real>

  /** `x > y`; false whenever either side is NaN. */
  predicate Gt(x: Num, y: Num) {
    x.Some? && y.Some? && x.value > y.value
  }

  /** `x < y`; false whenever either side is NaN. */
  predicate Lt(x: Num, y: Num) {
    x.Some? && y.Some? && x.value < y.value
  }

  /** `x >= y`; false whenever either side is NaN. */
  predicate Ge(x: Num, y: Num) {
    x.Some? && y.Some? && x.value >= y.value
  }

  /** `x <= y`; false whenever either side is NaN. */
  predicate Le(x: Num, y: Num) {
    x.Some? && y.Some? && x.value <= y.value
  }

  /** Arithmetic propagates NaN. */
  function Add(x: Num, y: Num): Num {
    if x.Some? && y.Some? then Some(x.value + y.value) else None
  }

  function Sub(x: Num, y: Num): Num {
    if x.Some? && y.Some? then Some(x.value - y.value) else None
  }

  function Mul(x: Num, y: Num): Num {
    if x.Some? && y.Some? then Some(x.value * y.value) else None
  }

  function Abs(x: Num): Num {
    if x.Some? && x.value < 0.0 then Some(-x.value) else x
  }

  /** numpy's elementwise `np.maximum`: NaN if either argument is NaN. */
  function NpMaximum(x: Num, y: Num): (r: Num)
    ensures r.Some? <==> x.Some? && y.Some?
    ensures r.Some? ==> r.value >= x.value && r.value >= y.value
    ensures r.Some? ==> r.value == x.value || r.value == y.value
  {
    if x.Some? && y.Some? then Some(if x.value >= y.value then x.value else y.value) else None
  }

  /** Python's built-in `max(x, y)`: it keeps `x` unless `y > x` holds,
      so a NaN in second place is skipped and a NaN in first place is kept. */
  function PyMax(x: Num, y: Num): (r: Num)
    ensures r == x || r == y
    ensures x.None? || y.None? ==> r == x
    ensures x.Some? && y.Some? ==> r.value >= x.value && r.value >= y.value
  {
    if Gt(y, x) then y else x
  }

  /** Python's built-in `min(x, y)`: it keeps `x` unless `y < x` holds. */
  function PyMin(x: Num, y: Num): (r: Num)
    ensures r == x || r == y
    ensures x.None? || y.None? ==> r == x
    ensures x.Some? && y.Some? ==> r.value <= x.value && r.value <= y.value
  {
    if Lt(y, x) then y else x
  }

  /** `series.shift(1)` read at position i: NaN at position 0. */
  function Shifted(xs: seq<Num>, i: nat): Num
    requires i < |xs|
  {
    if i == 0 then None else xs[i - 1]
  }
}
