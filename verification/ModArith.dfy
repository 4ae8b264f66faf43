// Arithmetic modulo the prime of the transform, and integer powers.
module ModArith {
  const MOD: int := 998244353

  ghost predicate Cong(a: int, b: int) {
    a % MOD == b % MOD
  }

  lemma AddMultiple(x: int, t: int)
    ensures (x + MOD * t) % MOD == x % MOD
  {
  }

  lemma CongMod(a: int)
    ensures Cong(a % MOD, a)
  {
  }

  lemma CongAdd(a: int, b: int, c: int, d: int)
    requires Cong(a, b) && Cong(c, d)
    ensures Cong(a + c, b + d) && Cong(a - c, b - d)
  {
    var k, l := a / MOD - b / MOD, c / MOD - d / MOD;
    assert a == b + MOD * k && c == d + MOD * l;
    AddMultiple(b + d, k + l);
    AddMultiple(b - d, k - l);
  }

  lemma CongMul(a: int, b: int, c: int, d: int)
    requires Cong(a, b) && Cong(c, d)
    ensures Cong(a * c, b * d)
  {
    var k, l := a / MOD - b / MOD, c / MOD - d / MOD;
    assert a == b + MOD * k && c == d + MOD * l;
    assert a * c == b * d + MOD * (b * l + k * d + MOD * (k * l)) by {
      assert (b + MOD * k) * (d + MOD * l) == b * d + b * (MOD * l) + (MOD * k) * d + (MOD * k) * (MOD * l);
    }
    AddMultiple(b * d, b * l + k * d + MOD * (k * l));
  }

  lemma CongTrans(a: int, b: int, c: int)
    requires Cong(a, b) && Cong(b, c)
    ensures Cong(a, c) && Cong(c, a)
  {
  }

  function Pow(x: int, n: nat): int {
    if n == 0 then 1 else x * Pow(x, n - 1)
  }

  lemma {:induction false} PowAdd(x: int, a: nat, b: nat)
    ensures Pow(x, a + b) == Pow(x, a) * Pow(x, b)
    decreases a
  {
    if a == 0 {
    } else {
      PowAdd(x, a - 1, b);
      assert x * (Pow(x, a - 1) * Pow(x, b)) == (x * Pow(x, a - 1)) * Pow(x, b);
    }
  }

  lemma Regroup(x: int, y: int, p: int, q: int)
    ensures (x * y) * (p * q) == (x * p) * (y * q)
  {
    assert (x * y) * (p * q) == x * (y * (p * q));
    assert y * (p * q) == p * (y * q);
  }

  lemma {:induction false} PowMulBase(x: int, y: int, n: nat)
    ensures Pow(x * y, n) == Pow(x, n) * Pow(y, n)
  {
    if n == 0 {
    } else {
      PowMulBase(x, y, n - 1);
      var p, q := Pow(x, n - 1), Pow(y, n - 1);
      Regroup(x, y, p, q);
    }
  }

  lemma {:induction false} PowPow(x: int, a: nat, b: nat)
    ensures a * b >= 0
    ensures Pow(Pow(x, a), b) == Pow(x, a * b)
    decreases b
  {
    if b == 0 {
      assert a * b == 0;
    } else {
      PowPow(x, a, b - 1);
      assert a * b == a + a * (b - 1);
      PowAdd(x, a, a * (b - 1));
    }
  }

  lemma {:induction false} PowOne(n: nat)
    ensures Pow(1, n) == 1
  {
    if n == 0 {
    } else {
      PowOne(n - 1);
    }
  }

  lemma {:induction false} CongPow(a: int, b: int, n: nat)
    requires Cong(a, b)
    ensures Cong(Pow(a, n), Pow(b, n))
  {
    if n == 0 {
    } else {
      CongPow(a, b, n - 1);
      CongMul(a, b, Pow(a, n - 1), Pow(b, n - 1));
    }
  }

  // ----- two concrete powers -----

  // From the residue `r` of x^n to the residue `s` of x^(2n).
  lemma Square(x: int, n: nat, r: int, s: int)
    requires Cong(Pow(x, n), r) && s == r * r % MOD
    ensures Cong(Pow(x, 2 * n), s)
  {
    PowAdd(x, n, n);
    CongMul(Pow(x, n), r, Pow(x, n), r);
    CongMod(r * r);
  }

  lemma SquareTimes(x: int, n: nat, r: int, s: int)
    requires Cong(Pow(x, n), r) && s == r * r * x % MOD
    ensures Cong(Pow(x, 2 * n + 1), s)
  {
    PowAdd(x, n, n);
    CongMul(Pow(x, n), r, Pow(x, n), r);
    CongMul(x, x, Pow(x, 2 * n), r * r);
    CongMod(r * r * x);
  }

  lemma First(x: int)
    ensures Pow(x, 1) == x
  {
    assert Pow(x, 0) == 1;
  }

  lemma ThreeTo119()
    ensures Cong(Pow(3, 119), 15311432)
  {
    hide Pow;
    First(3);
    SquareTimes(3, 1, 3, 27);
    SquareTimes(3, 3, 27, 2187);
    Square(3, 7, 2187, 4782969);
    SquareTimes(3, 14, 4782969, 79851780);
    SquareTimes(3, 29, 79851780, 3748461);
    SquareTimes(3, 59, 3748461, 15311432);
  }

  // 3 is not a square modulo MOD.
  lemma MinusOne()
    ensures Cong(Pow(3, (MOD - 1) / 2), -1)
  {
    hide Pow;
    ThreeTo119();
    Square(3, 119, 15311432, 267099868);
    Square(3, 238, 267099868, 733596141);
    Square(3, 476, 733596141, 565042129);
    Square(3, 952, 565042129, 363395222);
    Square(3, 1904, 363395222, 996173970);
    Square(3, 3808, 996173970, 24514907);
    Square(3, 7616, 24514907, 629671588);
    Square(3, 15232, 629671588, 968855178);
    Square(3, 30464, 968855178, 666702199);
    Square(3, 60928, 666702199, 350007156);
    Square(3, 121856, 350007156, 63912897);
    Square(3, 243712, 63912897, 584193783);
    Square(3, 487424, 584193783, 258648936);
    Square(3, 974848, 258648936, 166035806);
    Square(3, 1949696, 166035806, 476477967);
    Square(3, 3899392, 476477967, 781712469);
    Square(3, 7798784, 781712469, 922799308);
    Square(3, 15597568, 922799308, 452798380);
    Square(3, 31195136, 452798380, 929031873);
    Square(3, 62390272, 929031873, 372528824);
    Square(3, 124780544, 372528824, 911660635);
    Square(3, 249561088, 911660635, 998244352);
  }

  lemma TwoTo119()
    ensures Cong(Pow(2, 119), 749268343)
  {
    hide Pow;
    First(2);
    SquareTimes(2, 1, 2, 8);
    SquareTimes(2, 3, 8, 128);
    Square(2, 7, 128, 16384);
    SquareTimes(2, 14, 16384, 536870912);
    SquareTimes(2, 29, 536870912, 840200159);
    SquareTimes(2, 59, 840200159, 749268343);
  }

  // The order of 2 divides MOD - 1.
  lemma TwoOrder()
    ensures Cong(Pow(2, MOD - 1), 1)
  {
    hide Pow;
    TwoTo119();
    Square(2, 119, 749268343, 854599625);
    Square(2, 238, 854599625, 275981743);
    Square(2, 476, 275981743, 121229115);
    Square(2, 952, 121229115, 564515440);
    Square(2, 1904, 564515440, 500482297);
    Square(2, 3808, 500482297, 929671676);
    Square(2, 7616, 929671676, 972782536);
    Square(2, 15232, 972782536, 319351757);
    Square(2, 30464, 319351757, 216733819);
    Square(2, 60928, 216733819, 307971575);
    Square(2, 121856, 307971575, 823085725);
    Square(2, 243712, 823085725, 900830825);
    Square(2, 487424, 900830825, 765263132);
    Square(2, 974848, 765263132, 896052152);
    Square(2, 1949696, 896052152, 842947365);
    Square(2, 3899392, 842947365, 158463934);
    Square(2, 7798784, 158463934, 645684063);
    Square(2, 15597568, 645684063, 624949902);
    Square(2, 31195136, 624949902, 625715529);
    Square(2, 62390272, 625715529, 911660635);
    Square(2, 124780544, 911660635, 998244352);
    Square(2, 249561088, 998244352, 1);
    Square(2, 499122176, 1, 1);
  }
}
