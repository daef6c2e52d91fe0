/** Multiplication as a function, so that proofs can treat a product as one term. */
module Reals {
  function Times(x: real, y: real): real {
    x * y
  }
}
