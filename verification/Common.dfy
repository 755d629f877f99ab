/** Types and arithmetic shared by the other modules. */
module Common {

  datatype Option<+T> = None | Some(value: T)

  type byte = b: nat | b < 256

  /** Taking one divisor off lowers the quotient by one and keeps the rest. */
  lemma DivStep(n: int, m: int)
    requires m > 0
    ensures n / m == (n - m) / m + 1 && n % m == (n - m) % m
  {
    var x := n / m - (n - m) / m - 1;
    assert x * m == (n - m) % m - n % m;
    Multiple(x, m);
  }

  lemma Multiple(x: int, m: int)
    requires -m < x * m < m
    ensures x == 0
  {
  }
}
