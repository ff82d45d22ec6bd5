/** Plain arithmetic shared by the models. */
module Numbers {

  function Min(a: int, b: int): int {
    if a < b then a else b
  }

  function Max(a: int, b: int): int {
    if a < b then b else a
  }

  /** Conversion of a number to an integer, toward zero. */
  function Truncate(x: real): int {
    if x >= 0.0 then x.Floor else -((-x).Floor)
  }

  /** Division that truncates toward zero. */
  function Quotient(a: int, b: int): int
    requires b != 0
  {
    if (a >= 0) == (b > 0) then Abs(a) / Abs(b) else -(Abs(a) / Abs(b))
  }

  function Abs(a: int): nat {
    if a < 0 then -a else a
  }

  /** The quotient leaves a remainder smaller than the divisor and on the dividend's side of 0. */
  lemma QuotientMeaning(a: int, b: int)
    requires b > 0
    ensures var r := a - Quotient(a, b) * b;
      if a >= 0 then 0 <= r < b else -b < r <= 0
  {
    var n := Abs(a);
    assert n == n / b * b + n % b;
  }

  lemma TimesMonotone(a: int, b: int, k: nat)
    requires a <= b
    ensures a * k <= b * k
  {
  }

  lemma Cancel(p: nat, q: nat, k: nat)
    requires p * k < q * k
    ensures p < q
  {
  }

  lemma CancelWeak(p: nat, q: nat, k: nat)
    requires k > 0 && p * k <= q * k
    ensures p <= q
  {
  }
}
