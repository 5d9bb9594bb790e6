/** Products, quotients and bounds of integers. */
module Arithmetic {

  function Min(x: int, y: int): int { if x < y then x else y }

  function Max(x: int, y: int): int { if x < y then y else x }

  lemma AtLeastOnce(b: int, d: int)
    requires b > 0 && d >= 1
    ensures b * d >= b && b * -d <= -b
  {
  }

  lemma Ordered(b: int, x: int, y: int)
    requires b >= 0
    ensures x <= y ==> b * x <= b * y
  {
    if x <= y { assert b * (y - x) >= 0; }
  }

  lemma DivMod(b: int, q: int, r: int)
    requires 0 <= r < b
    ensures (b * q + r) / b == q && (b * q + r) % b == r
  {
    var x := b * q + r;
    assert x == b * (x / b) + x % b;
    var d := x / b - q;
    assert b * d == r - x % b by { assert b * d == b * (x / b) - b * q; }
    if d >= 1 { AtLeastOnce(b, d); } else if d <= -1 { AtLeastOnce(b, -d); }
  }
}
