// Polynomials as coefficient sequences, lowest degree first: evaluation, the even/odd split the
// transform is built on, products, and the orthogonality of powers of a root of unity.
module Poly {
  import opened ModArith

  function Ev(s: seq<int>, x: int): int {
    if s == [] then 0 else s[0] + x * Ev(s[1..], x)
  }

  function Evens(s: seq<int>): (r: seq<int>)
    ensures |r| == |s| / 2
  {
    seq(|s| / 2, i requires 0 <= i < |s| / 2 => s[2 * i])
  }

  function Odds(s: seq<int>): (r: seq<int>)
    ensures |r| == |s| / 2
  {
    seq(|s| / 2, i requires 0 <= i < |s| / 2 => s[2 * i + 1])
  }

  // P(x) = E(x^2) + x O(x^2).
  lemma {:induction false} EvSplit(s: seq<int>, x: int)
    requires |s| % 2 == 0
    ensures Ev(s, x) == Ev(Evens(s), x * x) + x * Ev(Odds(s), x * x)
    decreases |s|
  {
    if s == [] {
    } else {
      var t := s[2..];
      EvSplit(t, x);
      assert Evens(s)[1..] == Evens(t) && Odds(s)[1..] == Odds(t);
      assert s[1..][1..] == t;
      var e, o := Ev(Evens(t), x * x), Ev(Odds(t), x * x);
      assert Ev(s, x) == s[0] + x * (s[1] + x * (e + x * o));
      SplitStep(s[0], s[1], x, e, o);
    }
  }

  lemma SplitStep(a: int, b: int, x: int, e: int, o: int)
    ensures a + x * (b + x * (e + x * o)) == (a + x * x * e) + x * (b + x * x * o)
  {
    assert x * (b + x * (e + x * o)) == x * b + x * (x * (e + x * o));
    assert x * (x * (e + x * o)) == x * x * (e + x * o);
    assert x * x * (e + x * o) == x * x * e + x * x * (x * o);
    assert x * x * (x * o) == x * (x * x * o);
    assert x * (b + x * x * o) == x * b + x * (x * x * o);
  }

  lemma {:induction false} CongEv(s: seq<int>, x: int, y: int)
    requires Cong(x, y)
    ensures Cong(Ev(s, x), Ev(s, y))
  {
    if s == [] {
    } else {
      CongEv(s[1..], x, y);
      CongMul(x, y, Ev(s[1..], x), Ev(s[1..], y));
      CongAdd(x * Ev(s[1..], x), y * Ev(s[1..], y), s[0], s[0]);
    }
  }

  // Congruent coefficients give congruent values.
  lemma {:induction false} CongCoeffs(s: seq<int>, t: seq<int>, x: int)
    requires |s| == |t| && forall i | 0 <= i < |s| :: Cong(s[i], t[i])
    ensures Cong(Ev(s, x), Ev(t, x))
  {
    if s == [] {
    } else {
      CongCoeffs(s[1..], t[1..], x);
      CongMul(x, x, Ev(s[1..], x), Ev(t[1..], x));
      assert Cong(s[0], t[0]);
      CongAdd(s[0], t[0], x * Ev(s[1..], x), x * Ev(t[1..], x));
    }
  }

  // ----- products -----

  function Coef(s: seq<int>, k: int): int {
    if 0 <= k < |s| then s[k] else 0
  }

  // Coefficient k of the product: the sum of a[i] * b[k - i].
  function Conv(a: seq<int>, b: seq<int>, k: int): int {
    if a == [] then 0 else a[0] * Coef(b, k) + Conv(a[1..], b, k - 1)
  }

  function Product(a: seq<int>, b: seq<int>, n: nat): (r: seq<int>)
    ensures |r| == n
  {
    seq(n, k => Conv(a, b, k))
  }

  function Padded(s: seq<int>, n: nat): (r: seq<int>)
    ensures |r| == n
  {
    seq(n, k => Coef(s, k))
  }

  lemma {:induction false} EvZero(s: seq<int>, x: int)
    requires forall i | 0 <= i < |s| :: s[i] == 0
    ensures Ev(s, x) == 0
  {
    if s == [] {
    } else {
      EvZero(s[1..], x);
    }
  }

  lemma {:induction false} EvPadded(s: seq<int>, n: nat, x: int)
    requires |s| <= n
    ensures Ev(Padded(s, n), x) == Ev(s, x)
    decreases n
  {
    if s == [] {
      EvZero(Padded(s, n), x);
    } else {
      EvPadded(s[1..], n - 1, x);
      assert Padded(s, n)[1..] == Padded(s[1..], n - 1);
    }
  }

  // u + c v, coefficient by coefficient.
  lemma {:induction false} EvLinear(s: seq<int>, u: seq<int>, c: int, v: seq<int>, x: int)
    requires |s| == |u| == |v| && forall i | 0 <= i < |s| :: s[i] == u[i] + c * v[i]
    ensures Ev(s, x) == Ev(u, x) + c * Ev(v, x)
  {
    if s == [] {
      assert c * 0 == 0;
    } else {
      var t, p, q := s[1..], u[1..], v[1..];
      forall i | 0 <= i < |t|
        ensures t[i] == p[i] + c * q[i]
      {
        assert s[i + 1] == u[i + 1] + c * v[i + 1];
      }
      EvLinear(t, p, c, q, x);
      LinearStep(u[0], c, v[0], x, Ev(p, x), Ev(q, x));
    }
  }

  lemma LinearStep(a: int, c: int, b: int, x: int, p: int, q: int)
    ensures (a + c * b) + x * (p + c * q) == (a + x * p) + c * (b + x * q)
  {
    assert x * (p + c * q) == x * p + x * (c * q);
    assert x * (c * q) == c * (x * q);
    assert c * (b + x * q) == c * b + c * (x * q);
  }

  lemma {:induction false} ConvNegative(a: seq<int>, b: seq<int>, k: int)
    requires k < 0
    ensures Conv(a, b, k) == 0
  {
    if a == [] {
    } else {
      ConvNegative(a[1..], b, k - 1);
    }
  }

  // One more factor coefficient in front: a shift of the rest and a multiple of the other factor.
  lemma ProductStep(a: seq<int>, b: seq<int>, n: nat)
    requires a != [] && n > 0
    ensures var p, shifted := Product(a, b, n), [0] + Product(a[1..], b, n - 1);
      forall k | 0 <= k < n :: p[k] == shifted[k] + a[0] * Padded(b, n)[k]
  {
    ConvNegative(a[1..], b, -1);
  }

  // The value of the product is the product of the values.
  lemma {:induction false} EvProduct(a: seq<int>, b: seq<int>, n: nat, x: int)
    requires |a| + |b| <= n + 1
    ensures Ev(Product(a, b, n), x) == Ev(a, x) * Ev(b, x)
    decreases a
  {
    if a == [] {
      EvZero(Product(a, b, n), x);
    } else if n == 0 {
      assert b == [];
    } else {
      hide Product, Padded;
      var rest := Product(a[1..], b, n - 1);
      var shifted := [0] + rest;
      assert shifted[1..] == rest;
      ProductStep(a, b, n);
      EvLinear(Product(a, b, n), shifted, a[0], Padded(b, n), x);
      EvPadded(b, n, x);
      EvProduct(a[1..], b, n - 1, x);
      Distribute(a[0], x, Ev(a[1..], x), Ev(b, x));
    }
  }

  lemma Distribute(a: int, x: int, q: int, r: int)
    ensures (a + x * q) * r == x * (q * r) + a * r
  {
    assert (x * q) * r == x * (q * r);
  }

  // ----- roots of unity -----

  predicate IsPow2(n: nat) {
    n == 1 || (n > 1 && n % 2 == 0 && IsPow2(n / 2))
  }

  // 1 + z + ... + z^(n-1).
  function Geo(z: int, n: nat): int {
    if n == 0 then 0 else 1 + z * Geo(z, n - 1)
  }

  lemma {:induction false} GeoAdd(z: int, a: nat, b: nat)
    ensures Geo(z, a + b) == Geo(z, a) + Pow(z, a) * Geo(z, b)
    decreases a
  {
    if a == 0 {
    } else {
      GeoAdd(z, a - 1, b);
      GeoStep(z, Geo(z, a - 1), Pow(z, a - 1), Geo(z, b));
    }
  }

  lemma GeoStep(z: int, g: int, p: int, h: int)
    ensures z * (g + p * h) == z * g + (z * p) * h
  {
    assert z * (p * h) == (z * p) * h;
  }

  lemma {:induction false} CongGeo(z: int, y: int, n: nat)
    requires Cong(z, y)
    ensures Cong(Geo(z, n), Geo(y, n))
  {
    if n == 0 {
    } else {
      CongGeo(z, y, n - 1);
      CongMul(z, y, Geo(z, n - 1), Geo(y, n - 1));
      CongAdd(z * Geo(z, n - 1), y * Geo(y, n - 1), 1, 1);
    }
  }

  lemma {:induction false} GeoOne(n: nat)
    ensures Geo(1, n) == n
  {
    if n == 0 {
    } else {
      GeoOne(n - 1);
    }
  }

  lemma {:induction false} PowMinusOne(n: nat)
    ensures Pow(-1, n) == if n % 2 == 0 then 1 else -1
  {
    if n == 0 {
    } else {
      PowMinusOne(n - 1);
    }
  }

  // The n-th powers of a nontrivial power of a primitive n-th root sum to zero; halving n
  // replaces any appeal to the modulus being prime.
  lemma {:induction false} GeoRoot(w: int, n: nat, t: nat)
    requires IsPow2(n) && 0 < t < n && Cong(Pow(w, n / 2), -1)
    ensures Cong(Geo(Pow(w, t), n), 0)
    decreases n
  {
    var h := n / 2;
    var z := Pow(w, t);
    GeoAdd(z, h, h);
    assert n == h + h;
    var g := Geo(z, h);
    if t % 2 == 1 {
      PowPow(w, t, h);
      PowPow(w, h, t);
      assert t * h == h * t;
      CongPow(Pow(w, h), -1, t);
      PowMinusOne(t);
      assert Cong(Pow(z, h), -1);
      CongMul(Pow(z, h), -1, g, g);
      CongAdd(g, g, Pow(z, h) * g, -1 * g);
    } else {
      var m := t / 2;
      PowPow(w, 2, h / 2);
      assert 2 * (h / 2) == h;
      assert Cong(Pow(Pow(w, 2), h / 2), -1);
      GeoRoot(Pow(w, 2), h, m);
      PowPow(w, 2, m);
      assert 2 * m == t;
      assert Cong(g, 0);
      CongMul(Pow(z, h), Pow(z, h), g, 0);
      CongAdd(g, 0, Pow(z, h) * g, Pow(z, h) * 0);
    }
  }

  // ----- inversion -----

  // The values of c at 1, w, ..., w^(n-1).
  function Values(c: seq<int>, w: int, n: nat): (r: seq<int>)
    ensures |r| == n
  {
    seq(n, i requires 0 <= i < n => Ev(c, Pow(w, i)))
  }

  lemma {:induction false} EvSnoc(c: seq<int>, e: int, x: int)
    ensures Ev(c + [e], x) == Ev(c, x) + e * Pow(x, |c|)
  {
    if c == [] {
      assert (c + [e])[1..] == [];
    } else {
      EvSnoc(c[1..], e, x);
      assert (c + [e])[1..] == c[1..] + [e];
      var p, q := Ev(c[1..], x), Pow(x, |c| - 1);
      assert x * (p + e * q) == x * p + e * (x * q) by {
        assert x * (e * q) == e * (x * q);
      }
    }
  }

  function Powers(z: int, n: nat): (r: seq<int>)
    ensures |r| == n
  {
    seq(n, i requires 0 <= i < n => Pow(z, i))
  }

  // Evaluating the powers of z at y sums the powers of z y.
  lemma {:induction false} EvPowers(z: int, y: int, n: nat)
    ensures Ev(Powers(z, n), y) == Geo(z * y, n)
  {
    if n == 0 {
    } else {
      EvPowers(z, y, n - 1);
      var p := Powers(z, n);
      var q := Powers(z, n - 1);
      assert p == q + [Pow(z, n - 1)];
      EvSnoc(q, Pow(z, n - 1), y);
      PowMulBase(z, y, n - 1);
      GeoAdd(z * y, n - 1, 1);
      assert Geo(z * y, 1) == 1 by {
        assert Geo(z * y, 0) == 0;
      }
    }
  }

  // w^j v^k with w v = 1 is 1 when j = k and otherwise a nontrivial power of w or of v.
  lemma Orthogonal(w: int, v: int, n: nat, j: nat, k: nat)
    requires IsPow2(n) && j < n && k < n && Cong(w * v, 1)
    requires n > 1 ==> Cong(Pow(w, n / 2), -1) && Cong(Pow(v, n / 2), -1)
    ensures Cong(Geo(Pow(w, j) * Pow(v, k), n), if j == k then n else 0)
  {
    if j <= k {
      Cancel(w, v, j, k - j);
      CongGeo(Pow(w, j) * Pow(v, k), Pow(v, k - j), n);
      if j == k {
        GeoOne(n);
      } else {
        GeoRoot(v, n, k - j);
      }
    } else {
      assert v * w == w * v;
      Cancel(v, w, k, j - k);
      assert Pow(w, j) * Pow(v, k) == Pow(v, k) * Pow(w, j);
      CongGeo(Pow(w, j) * Pow(v, k), Pow(w, j - k), n);
      GeoRoot(w, n, j - k);
    }
  }

  lemma Cancel(w: int, v: int, j: nat, t: nat)
    requires Cong(w * v, 1)
    ensures Cong(Pow(w, j) * Pow(v, j + t), Pow(v, t))
  {
    PowAdd(v, j, t);
    PowMulBase(w, v, j);
    CongPow(w * v, 1, j);
    PowOne(j);
    CongMul(Pow(w * v, j), 1, Pow(v, t), Pow(v, t));
    assert Pow(w, j) * (Pow(v, j) * Pow(v, t)) == (Pow(w, j) * Pow(v, j)) * Pow(v, t);
  }

  // One more coefficient adds a multiple of a sum of powers to the transform of the values.
  lemma ValuesSnoc(d: seq<int>, e: int, w: int, n: nat, y: int)
    ensures Ev(Values(d + [e], w, n), y) == Ev(Values(d, w, n), y) + e * Geo(Pow(w, |d|) * y, n)
  {
    var z := Pow(w, |d|);
    forall i | 0 <= i < n
      ensures Values(d + [e], w, n)[i] == Values(d, w, n)[i] + e * Powers(z, n)[i]
    {
      EvSnoc(d, e, Pow(w, i));
      PowSwap(w, i, |d|);
    }
    EvLinear(Values(d + [e], w, n), Values(d, w, n), e, Powers(z, n), y);
    EvPowers(z, y, n);
  }

  lemma PowSwap(w: int, i: nat, j: nat)
    ensures Pow(Pow(w, i), j) == Pow(Pow(w, j), i)
  {
    PowPow(w, i, j);
    PowPow(w, j, i);
    assert i * j == j * i;
  }

  // Transforming the values back with the inverse root gives n times the coefficients.
  lemma {:induction false} Inversion(c: seq<int>, w: int, v: int, n: nat, k: nat)
    requires IsPow2(n) && |c| <= n && k < n && Cong(w * v, 1)
    requires n > 1 ==> Cong(Pow(w, n / 2), -1) && Cong(Pow(v, n / 2), -1)
    ensures Cong(Ev(Values(c, w, n), Pow(v, k)), n * Coef(c, k))
    decreases |c|
  {
    hide Pow, Geo, Ev, Cong, Values;
    var y := Pow(v, k);
    if c == [] {
      ValuesOfNothing(w, n, y);
    } else {
      var j := |c| - 1;
      var d, e := c[..j], c[j];
      assert c == d + [e];
      Inversion(d, w, v, n, k);
      ValuesSnoc(d, e, w, n, y);
      Orthogonal(w, v, n, j, k);
      AddTerm(Ev(Values(d, w, n), y), n * Coef(d, k), e, Geo(Pow(w, j) * y, n), if j == k then n else 0);
      assert n * Coef(d, k) + e * (if j == k then n else 0) == n * Coef(c, k) by {
        if j == k {
          assert Coef(d, k) == 0 && Coef(c, k) == e;
          assert e * n == n * e;
        } else {
          assert Coef(d, k) == Coef(c, k);
        }
      }
    }
  }

  lemma ValuesOfNothing(w: int, n: nat, y: int)
    ensures Cong(Ev(Values([], w, n), y), n * Coef([], 0))
  {
    EvZero(Values([], w, n), y);
  }

  lemma AddTerm(p: int, q: int, e: int, g: int, s: int)
    requires Cong(p, q) && Cong(g, s)
    ensures Cong(p + e * g, q + e * s)
  {
    CongMul(e, e, g, s);
    CongAdd(p, q, e * g, e * s);
  }
}
