// C's integer operations where they differ from mathematics.
module CArith {

  // Division that truncates towards zero, and its remainder.
  function CDiv(a: int, b: int): int
    requires b != 0
  {
    if a >= 0 then (if b > 0 then a / b else -(a / -b))
    else if b > 0 then -(-a / b) else -a / -b
  }

  function CMod(a: int, b: int): int
    requires b != 0
  {
    a - CDiv(a, b) * b
  }

  // A long compared with an unsigned long.
  function ToUnsigned(d: int): int {
    if d < 0 then d + 0x1_0000_0000_0000_0000 else d
  }

  // A long returned as an int.
  function ToInt(d: int): int {
    var m := d % 0x1_0000_0000;
    if m < 0x8000_0000 then m else m - 0x1_0000_0000
  }

  function Min(a: int, b: int): int {
    if a < b then a else b
  }

  function Abs(a: int): nat {
    if a < 0 then -a else a
  }

  // A value that is not negative comes back from an int exactly when it fits one.
  lemma FitsInt(d: nat)
    ensures ToInt(d) == d <==> d < 0x8000_0000
  {
  }

  // The quotient and the remainder belong together, the remainder is smaller than the divisor and
  // has the dividend's sign.
  lemma CDivIs(a: int, b: int)
    requires b != 0
    ensures a == CDiv(a, b) * b + CMod(a, b) && Abs(CMod(a, b)) < Abs(b)
    ensures a >= 0 ==> CMod(a, b) >= 0
    ensures a <= 0 ==> CMod(a, b) <= 0
  {
    var x, y := Abs(a), Abs(b);
    assert y > 0;
    var q, r := x / y, x % y;
    assert x == q * y + r;
    assert CDiv(a, b) == if (a >= 0) == (b > 0) then q else -q;
    assert (-q) * b == -(q * b) && q * (-b) == -(q * b);
  }

  // An int, equal to the long up to a multiple of 2^32.
  lemma ToIntIs(d: int)
    ensures -0x8000_0000 <= ToInt(d) < 0x8000_0000 && (d - ToInt(d)) % 0x1_0000_0000 == 0
  {
  }
}
