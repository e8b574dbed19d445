/** Integer division as Swift performs it: the quotient truncates toward zero
    and the remainder takes the dividend's sign (Dafny's own `/` and `%` are
    Euclidean). */
module SwiftArith {

  function TruncDiv(a: int, b: int): int
    requires b > 0
  {
    if a >= 0 then a / b else -((-a) / b)
  }

  function TruncMod(a: int, b: int): (r: int)
    requires b > 0
    ensures -b < r < b
    ensures a >= 0 ==> 0 <= r
    ensures a <= 0 ==> r <= 0
  {
    if a >= 0 then a % b else -((-a) % b)
  }

  /** The quotient and remainder recompose the dividend, as in Swift. */
  lemma DivModIdentity(a: int, b: int)
    requires b > 0
    ensures TruncDiv(a, b) * b + TruncMod(a, b) == a
    ensures a >= 0 ==> TruncDiv(a, b) == a / b && TruncMod(a, b) == a % b
  {
    if a < 0 {
      assert ((-a) / b) * b + (-a) % b == -a;
    }
  }
}
