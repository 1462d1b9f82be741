/** Integer arithmetic as Go does it. */
module Integers {

  /** The division of Go, which rounds towards zero. */
  function Quotient(a: int, b: int): int
    requires b > 0
  {
    if a >= 0 then a / b else -(-a / b)
  }
}
