/** `max` and `abs` on real numbers. */
module Reals {

  function Max(a: real, b: real): real {
    if b > a then b else a
  }

  function Abs(x: real): real {
    if x < 0.0 then -x else x
  }
}
