/** Small shared vocabulary: an optional value and integer minimum/maximum. */
module Common {

  /** A value that may be missing; `None` stands for an external step that raised. */
  datatype Option<+T> = None | Some(value: T)

  function Min(a: int, b: int): int
  {
    if a <= b then a else b
  }

  function Max(a: int, b: int): int
  {
    if a >= b then a else b
  }

  lemma MulMonotone(a: nat, b: nat, m: nat)
    requires a <= b
    ensures a * m <= b * m
  {
    assert b * m - a * m == (b - a) * m;
  }

  /** One factor fewer is one `m` less. */
  lemma MulPred(k: nat, m: nat)
    requires k > 0
    ensures k * m == (k - 1) * m + m
  {
  }

  /** The quotient rounded down, multiplied back, does not exceed the dividend. */
  lemma DivMulBelow(x: nat, y: nat)
    requires y > 0
    ensures (x / y) * y <= x
  {
  }

  /** A quotient rounded down is the largest multiple of `y` not above `x`. */
  lemma FloorBracket(x: nat, y: nat)
    requires y > 0
    ensures (x / y) * y <= x < (x / y + 1) * y
  {
    assert x == (x / y) * y + x % y;
  }

  /** Rounding a quotient down keeps it under any bound the exact quotient has. */
  lemma DivBound(x: nat, y: nat, b: nat)
    requires y > 0 && x <= b * y
    ensures x / y <= b
  {
    var q := x / y;
    assert q * y <= x;
    ScaleCompare(b, q, y);
  }

  /** Multiplying both sides by a positive number keeps a strict order. */
  lemma ScaleCompare(x: nat, y: nat, k: nat)
    requires k > 0
    ensures x < y <==> x * k < y * k
  {
    if x < y {
      MulMonotone(x + 1, y, k);
      assert (x + 1) * k == x * k + k;
    } else {
      MulMonotone(y, x, k);
    }
  }
}
