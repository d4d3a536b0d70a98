/**
 What a quantity costs, in exact reals.
 */
module Money {
  function Cost(qty: int, unit: real): real {
    qty as real * unit
  }
}
