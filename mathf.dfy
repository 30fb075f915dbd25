/**
 * The few UnityEngine.Mathf helpers the brush editor applies to its fields,
 * over exact reals.
 */
module Mathf {

  /** Mathf.Abs. */
  function Abs(x: real): (r: real)
    ensures r >= 0.0
    ensures r == x || r == -x
  {
    if x < 0.0 then -x else x
  }

  /**
   * Mathf.Clamp: below `min` gives `min`, above `max` gives `max`, anything
   * else is left alone (the lower bound is compared first).
   */
  function Clamp(value: real, min: real, max: real): (r: real)
    ensures min <= max ==> min <= r <= max
    ensures min <= value <= max ==> r == value
    ensures value < min ==> r == min
    ensures min <= max < value ==> r == max
  {
    if value < min then min else if value > max then max else value
  }

  /** Mathf.Max on ints. */
  function Max(a: int, b: int): (r: int)
    ensures r >= a && r >= b
    ensures r == a || r == b
  {
    if a >= b then a else b
  }
}
