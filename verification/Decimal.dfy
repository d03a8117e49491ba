module Decimal {
  function Power10(n: nat): (p: nat)
    ensures 0 < p
  {
    if n == 0 then 1 else 10 * Power10(n - 1)
  }
}
