/** Small facts about integer multiplication and division that the index
    arithmetic of the mesh builder rests on. */
module Arith {

  /** C# `/` on `int` truncates toward zero; Dafny's `/` is Euclidean.
      The two differ only for a negative dividend. */
  function CsDiv(a: int, b: int): (q: int)
    requires b > 0
    ensures a >= 0 ==> q * b <= a < q * b + b
    ensures a < 0 ==> q <= 0 && a <= q * b && q * b - b < a
  {
    if a >= 0 then a / b else -((-a) / b)
  }

  lemma MulLeft(a: int, b: int, c: int)
    requires a <= b && c >= 0
    ensures a * c <= b * c
  {
    assert b * c - a * c == (b - a) * c;
  }

  lemma MulStrict(a: int, b: int, c: int)
    requires a < b && c > 0
    ensures a * c < b * c
  {
    assert b * c - a * c == (b - a) * c;
  }

  lemma MulAddOne(a: int, b: int)
    ensures a * b + b == (a + 1) * b
  {
  }

  /** The quotient and remainder of `q * n + r` by `n` are `q` and `r`. */
  lemma DivModOf(n: int, q: int, r: int)
    requires n > 0 && 0 <= r < n
    ensures (q * n + r) / n == q
    ensures (q * n + r) % n == r
  {
    var k := q * n + r;
    var d := k / n;
    assert k == d * n + k % n;
    assert (q - d) * n == k % n - r;
    if q - d >= 1 {
      MulLeft(1, q - d, n);
    } else if q - d <= -1 {
      MulLeft(q - d, -1, n);
    }
  }

  /** A number is determined by its quotient and remainder. */
  lemma SameDivMod(a: int, b: int, n: int)
    requires n > 0 && a / n == b / n && a % n == b % n
    ensures a == b
  {
    assert a == (a / n) * n + a % n;
    assert b == (b / n) * n + b % n;
  }

  /** `Mathf.RoundToInt`: the nearest integer, a tie going to the even
      neighbour (the default midpoint rule of .NET's `Math.Round`). */
  function RoundToInt(x: real): (r: int)
    ensures x - 0.5 <= r as real <= x + 0.5
  {
    var f := x.Floor;
    var frac := x - f as real;
    if frac < 0.5 then f
    else if frac > 0.5 then f + 1
    else if f % 2 == 0 then f else f + 1
  }

  /** The rounding is determined by distance alone away from ties, and by
      parity at ties: an integer strictly closer than one half is the
      result, and at a tie the result is the even one of the two
      neighbours. */
  lemma RoundToIntCharacterised(x: real, n: int)
    ensures (x - 0.5 < n as real < x + 0.5) ==> RoundToInt(x) == n
    ensures (n as real == x - 0.5 || n as real == x + 0.5) ==>
      (RoundToInt(x) == n <==> n % 2 == 0)
  {
    var f := x.Floor;
    assert f as real <= x < f as real + 1.0;
    if x - 0.5 < n as real < x + 0.5 {
      if x - f as real < 0.5 {
        assert f - 1 < n < f + 1;
      } else if x - f as real > 0.5 {
        assert f < n < f + 2;
      } else {
        assert false;
      }
    }
  }
}
