/** Definitions every module shares: optional values, Python truthiness of an
    optional string, and Python's `int()` on a float. */
module Common {

  /** A value that may be absent: Python's `None`, JavaScript's `undefined`/`null`,
      or a dictionary key that is not present. */
  datatype Option<+T> = None | Some(value: T) {

    /** The carried value, or `default` when absent (Python's `d.get(k, default)`). */
    function GetOr(default: T): T {
      match this
      case Some(v) => v
      case None => default
    }
  }

  /** Python truthiness of an optional string: absent and "" are both falsy. */
  predicate Truthy(s: Option<string>) {
    s.Some? && s.value != ""
  }

  /** Python's `int(x)` on a float: truncation toward zero. */
  function Trunc(x: real): (n: int)
    ensures x >= 0.0 ==> n == x.Floor
    ensures x >= 0.0 ==> n as real <= x < n as real + 1.0
    ensures x < 0.0 ==> x <= n as real < x + 1.0 && n <= 0
  {
    if x >= 0.0 then x.Floor else -((-x).Floor)
  }
}
