/** Lengths of time, in seconds. */
module Durations {
  function Min(a: real, b: real): real {
    if a < b then a else b
  }
}
