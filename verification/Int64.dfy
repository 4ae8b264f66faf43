// The 64-bit two's complement integers of the language: `int` is lowered to LLVM's i64.
module Int64 {
  const TWO_63: int := 0x8000_0000_0000_0000
  const TWO_64: int := 0x1_0000_0000_0000_0000

  predicate InRange(x: int) {
    -TWO_63 <= x < TWO_63
  }

  // The representative of x modulo 2^64 that a signed 64-bit word can hold.
  function Wrap(x: int): (r: int)
    ensures InRange(r)
    ensures (x - r) % TWO_64 == 0
    ensures InRange(x) ==> r == x
  {
    (x + TWO_63) % TWO_64 - TWO_63
  }

  function Abs(x: int): nat {
    if x < 0 then -x else x
  }

  // Division truncates toward zero, as LLVM's sdiv does.
  function Quotient(a: int, b: int): int
    requires b != 0
  {
    if (a < 0) == (b < 0) then Abs(a) / Abs(b) else -(Abs(a) / Abs(b))
  }

  // The remainder has the sign of the dividend, as LLVM's srem does.
  function Remainder(a: int, b: int): int
    requires b != 0
  {
    if a < 0 then -(Abs(a) % Abs(b)) else Abs(a) % Abs(b)
  }

  // Truncating division is determined by its defining equation and the bound and sign of the remainder.
  lemma QuotientRemainder(a: int, b: int)
    requires b != 0
    ensures a == b * Quotient(a, b) + Remainder(a, b)
    ensures Abs(Remainder(a, b)) < Abs(b)
    ensures Remainder(a, b) != 0 ==> (Remainder(a, b) < 0 <==> a < 0)
  {
    var q, r := Abs(a) / Abs(b), Abs(a) % Abs(b);
    assert Abs(a) == Abs(b) * q + r;
    if (a < 0) == (b < 0) {
      assert b * q == if b < 0 then -(Abs(b) * q) else Abs(b) * q;
    } else {
      assert b * -q == if b < 0 then Abs(b) * q else -(Abs(b) * q);
    }
  }

  // The two kinds of division that have no 64-bit result are by zero and of the least number by -1.
  predicate Divides(a: int, b: int) {
    b != 0 && !(a == -TWO_63 && b == -1)
  }

  lemma AtMostHalf(x: nat, y: nat)
    requires y >= 2
    ensures x / y <= x / 2
  {
    var q := x / y;
    assert x == y * q + x % y;
    assert 2 * q <= y * q;
  }

  // A division has a result exactly when its quotient is defined and fits; then its remainder fits too.
  lemma DividesExactly(a: int, b: int)
    requires InRange(a) && InRange(b)
    ensures Divides(a, b) <==> b != 0 && InRange(Quotient(a, b))
    ensures Divides(a, b) ==> InRange(Remainder(a, b))
  {
    if b != 0 {
      QuotientRemainder(a, b);
      if Abs(b) >= 2 {
        AtMostHalf(Abs(a), Abs(b));
      }
    }
  }
}
