/**
 * Java `int` arithmetic as the solver's host code uses it: 32-bit two's-complement
 * wrap-around and division that truncates toward zero (Dafny's own `/` is Euclidean).
 */
module JavaInt {

  const MinInt: int := -0x8000_0000
  const MaxInt: int := 0x7fff_ffff
  const Modulus: int := 0x1_0000_0000

  predicate IsInt(x: int) {
    MinInt <= x <= MaxInt
  }

  /** The `int` a Java expression yields when its exact value is `x`. */
  function Wrap(x: int): (r: int)
    ensures IsInt(r)
    ensures IsInt(x) ==> r == x
    ensures (r - x) % Modulus == 0
  {
    (x - MinInt) % Modulus + MinInt
  }

  /** Java's integer division: the quotient truncated toward zero. */
  function Div(a: int, b: int): (q: int)
    requires b != 0
    ensures var r := a - q * b;
      (if b > 0 then -b < r < b else b < r < -b) && (r == 0 || (r > 0 <==> a > 0))
  {
    var m := if a >= 0 then a else -a;
    var d := if b > 0 then b else -b;
    var t := m / d;
    assert m - t * d >= 0 && m - t * d < d;
    if (a >= 0) == (b > 0) then t else -t
  }
}
