/** The pieces of C#'s 32-bit `int` arithmetic that the money model relies on:
    the value range, `Math.Abs`, and the truncating `/` and `%` operators. */
module CSharpInt {

  const IntMin: int := -0x8000_0000
  const IntMax: int := 0x7fff_ffff

  /** C#'s `int` (System.Int32). */
  type int32 = x: int | -0x8000_0000 <= x <= 0x7fff_ffff

  /** `Math.Abs` on an integer. On `int.MinValue` the C# method throws
      `OverflowException`; callers in the model exclude that value. */
  function Abs(x: int): (r: nat)
    ensures r == x || r == -x
  {
    if x < 0 then -x else x
  }

  /** C#'s integer `/`: the quotient is truncated toward zero, so its
      magnitude is the quotient of the magnitudes and its sign is the product
      of the operands' signs. Dafny's own `/` is Euclidean and differs on
      negative dividends. */
  function TruncDiv(a: int, b: int): (q: int)
    requires b != 0
    ensures Abs(q) == Abs(a) / Abs(b)
    ensures q > 0 ==> (a > 0) == (b > 0)
    ensures q < 0 ==> (a > 0) != (b > 0)
  {
    var n: int := Abs(a) / Abs(b);
    QuotientOfMagnitudes(Abs(a), Abs(b));
    if (a >= 0) == (b > 0) then n else -n
  }

  lemma QuotientOfMagnitudes(x: nat, y: nat)
    requires y > 0
    ensures 0 <= x / y
    ensures x == 0 ==> x / y == 0
  {
    if x == 0 {
      assert 0 == y * 0 + 0;
    }
  }

  /** C#'s integer `%`: the remainder that goes with the truncating quotient.
      It takes the sign of the dividend and is smaller than the divisor in
      magnitude. */
  function TruncMod(a: int, b: int): (r: int)
    requires b != 0
    ensures a == b * TruncDiv(a, b) + r
    ensures Abs(r) < Abs(b)
    ensures a >= 0 ==> r >= 0
    ensures a <= 0 ==> r <= 0
  {
    var q := TruncDiv(a, b);
    AbsOfProduct(b, q);
    a - b * q
  }

  lemma AbsOfProduct(x: int, y: int)
    ensures Abs(x * y) == Abs(x) * Abs(y)
  {
    if x < 0 && y >= 0 {
      assert x * y == -(Abs(x) * y);
    } else if x >= 0 && y < 0 {
      assert x * y == -(x * Abs(y));
    } else if x < 0 && y < 0 {
      assert x * y == Abs(x) * Abs(y);
    }
  }
}
