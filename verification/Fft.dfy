// Polynomial multiplication by a number-theoretic transform, in place on the arrays the program
// keeps. Sums go through `I32`, whose precondition is that a 32-bit int holds them.
module Fft {
  import opened ModArith
  import opened Poly

  const TWO_31: int := 0x8000_0000
  const MAXLEN: nat := 2097152

  function I32(x: int): int
    requires -TWO_31 <= x < TWO_31
  {
    x
  }

  predicate Residue(x: int) {
    0 <= x < MOD
  }

  // ----- multiply and power -----

  // a * b by doubling, so that no product is ever formed.
  function Multiply(a: int, b: int): (r: int)
    requires Residue(a) && 0 <= b < TWO_31
    ensures Residue(r) && Cong(r, a * b)
    decreases b
  {
    if b == 0 then 0
    else if b == 1 then a % MOD
    else
      var half := Multiply(a, b / 2);
      var cur := I32(half + half) % MOD;
      DoubleStep(a, b, half, cur);
      if b % 2 == 1 then I32(cur + a) % MOD else cur
  }

  lemma DoubleStep(a: int, b: int, half: int, cur: int)
    requires b >= 2 && Cong(half, a * (b / 2)) && cur == (half + half) % MOD
    ensures if b % 2 == 1 then Cong((cur + a) % MOD, a * b) else Cong(cur, a * b)
  {
    var m := b / 2;
    CongAdd(half, a * m, half, a * m);
    CongMod(half + half);
    assert a * m + a * m == a * (m + m);
    assert Cong(cur, a * (m + m));
    if b % 2 == 1 {
      CongAdd(cur, a * (m + m), a, a);
      assert a * (m + m) + a == a * b;
      CongMod(cur + a);
    }
  }

  function Power(a: int, b: int): (r: int)
    requires Residue(a) && 0 <= b < TWO_31
    ensures Residue(r) && Cong(r, Pow(a, b))
    decreases b
  {
    if b == 0 then 1
    else
      var half := Power(a, b / 2);
      var cur := Multiply(half, half);
      SquareStep(a, b, half, cur);
      if b % 2 == 1 then Multiply(cur, a) else cur
  }

  lemma SquareStep(a: int, b: int, half: int, cur: int)
    requires b >= 1 && Residue(a) && Residue(cur) && Cong(half, Pow(a, b / 2)) && Cong(cur, half * half)
    ensures if b % 2 == 1 then Cong(cur * a, Pow(a, b)) else Cong(cur, Pow(a, b))
  {
    var m := b / 2;
    PowAdd(a, m, m);
    CongMul(half, Pow(a, m), half, Pow(a, m));
    if b % 2 == 1 {
      CongMul(cur, Pow(a, m + m), a, a);
      assert Pow(a, b) == a * Pow(a, m + m);
    }
  }

  // ----- the transform -----

  ghost predicate Residues(s: seq<int>) {
    forall i | 0 <= i < |s| :: Residue(s[i])
  }

  // v is the value of the polynomial s at w^k.
  ghost predicate ValueAt(v: int, s: seq<int>, w: int, k: nat) {
    Residue(v) && Cong(v, Ev(s, Pow(w, k)))
  }

  // t holds the values of the polynomial s at w^0, w^1, ...
  ghost predicate IsTransform(t: seq<int>, s: seq<int>, w: int) {
    |t| == |s| && forall i | 0 <= i < |s| :: ValueAt(t[i], s, w, i)
  }

  // One butterfly: from the values of the halves at w^2i to the values of the whole at w^i and w^(i+n/2).
  lemma Butterfly(s: seq<int>, w: int, w2: int, i: nat, wn: int, x: int, y: int, p: int)
    requires |s| % 2 == 0 && |s| > 0
    requires Cong(w2, w * w) && Cong(Pow(w, |s| / 2), -1)
    requires Cong(wn, Pow(w, i)) && Cong(p, wn * y)
    requires ValueAt(x, Evens(s), w2, i) && ValueAt(y, Odds(s), w2, i)
    ensures ValueAt((x + p) % MOD, s, w, i)
    ensures ValueAt((x - p + MOD) % MOD, s, w, i + |s| / 2)
  {
    var z := Pow(w, i);
    CongPow(w2, w * w, i);
    PowMulBase(w, w, i);
    AtPoint(s, z, Pow(w2, i), x, y, wn, p);
    CongMod(x + p);
    Opposite(w, i, |s| / 2, wn);
    var z' := Pow(w, i + |s| / 2);
    CongMul(-1, -1, p, wn * y);
    assert -1 * (wn * y) == (-wn) * y;
    AtPoint(s, z', Pow(w2, i), x, y, -wn, -p);
    AddMultiple(x - p, 1);
    CongMod(x - p + MOD);
  }

  // The power half a turn further on is the negative, with the same square.
  lemma Opposite(w: int, i: nat, h: nat, wn: int)
    requires Cong(Pow(w, h), -1) && Cong(wn, Pow(w, i))
    ensures Cong(-wn, Pow(w, i + h))
    ensures Cong(Pow(w, i + h) * Pow(w, i + h), Pow(w, i) * Pow(w, i))
  {
    var z, z' := Pow(w, i), Pow(w, i + h);
    PowAdd(w, i, h);
    CongMul(z, z, Pow(w, h), -1);
    CongMul(z', -z, z', -z);
    assert (-z) * (-z) == z * z;
    CongMul(-1, -1, wn, z);
  }

  // The split formula at a point z, modulo MOD.
  lemma AtPoint(s: seq<int>, z: int, q: int, x: int, y: int, u: int, p: int)
    requires |s| % 2 == 0
    requires Cong(q, z * z) && Cong(u, z) && Cong(p, u * y)
    requires Cong(x, Ev(Evens(s), q)) && Cong(y, Ev(Odds(s), q))
    ensures Cong(x + p, Ev(s, z))
  {
    EvSplit(s, z);
    CongEv(Evens(s), q, z * z);
    CongEv(Odds(s), q, z * z);
    CongMul(u, z, y, Ev(Odds(s), z * z));
    CongAdd(x, Ev(Evens(s), z * z), p, z * Ev(Odds(s), z * z));
  }

  // From `old'`, the cells of the first i butterflies of a segment of two halves of h cells are done.
  ghost predicate Combined(a: seq<int>, old': seq<int>, begin: nat, h: nat, i: nat, s: seq<int>, w: int) {
    && |a| == |old'| && i <= h && begin + h + h <= |a|
    && (forall j | 0 <= j < |a| && !(begin <= j < begin + i) && !(begin + h <= j < begin + h + i) :: a[j] == old'[j])
    && (forall j | begin <= j < begin + i :: ValueAt(a[j], s, w, j - begin))
    && (forall j | begin + h <= j < begin + h + i :: ValueAt(a[j], s, w, j - begin))
  }

  lemma CombineStart(a: seq<int>, begin: nat, h: nat, s: seq<int>, w: int)
    requires begin + h + h <= |a|
    ensures Combined(a, a, begin, h, 0, s, w)
  {
  }

  // The two cells of the next butterfly still hold values of the halves.
  lemma HalvesWait(a: seq<int>, old': seq<int>, begin: nat, h: nat, i: nat, s: seq<int>, w: int, w2: int)
    requires Combined(a, old', begin, h, i, s, w) && i < h
    requires IsTransform(old'[begin..begin + h], Evens(s), w2)
    requires IsTransform(old'[begin + h..begin + h + h], Odds(s), w2)
    ensures ValueAt(a[begin + i], Evens(s), w2, i) && ValueAt(a[begin + h + i], Odds(s), w2, i)
  {
    hide ValueAt, Evens, Odds;
    assert ValueAt(old'[begin..begin + h][i], Evens(s), w2, i);
    assert ValueAt(old'[begin + h..begin + h + h][i], Odds(s), w2, i);
  }

  lemma CombineStep(a: seq<int>, now: seq<int>, old': seq<int>, begin: nat, h: nat, i: nat, s: seq<int>, w: int)
    requires Combined(now, old', begin, h, i, s, w) && i < h && |a| == |now|
    requires forall j | 0 <= j < |a| && j != begin + i && j != begin + h + i :: a[j] == now[j]
    requires ValueAt(a[begin + i], s, w, i) && ValueAt(a[begin + h + i], s, w, i + h)
    ensures Combined(a, old', begin, h, i + 1, s, w)
  {
    hide ValueAt;
  }

  lemma CombineEnd(a: seq<int>, old': seq<int>, begin: nat, h: nat, s: seq<int>, w: int)
    requires Combined(a, old', begin, h, h, s, w) && |s| == h + h
    ensures a[..begin] == old'[..begin] && a[begin + h + h..] == old'[begin + h + h..]
    ensures IsTransform(a[begin..begin + h + h], s, w)
  {
    hide ValueAt;
    var t := a[begin..begin + h + h];
    forall i | 0 <= i < |s|
      ensures ValueAt(t[i], s, w, i)
    {
      assert t[i] == a[begin + i];
    }
  }

  lemma Separated(t: seq<int>, s: seq<int>, h: nat)
    requires |t| == |s| == 2 * h
    requires forall k | 0 <= k < h :: t[k] == s[2 * k] && t[h + k] == s[2 * k + 1]
    ensures t[..h] == Evens(s) && t[h..] == Odds(s)
  {
    assert forall k | 0 <= k < h :: t[h..][k] == t[h + k];
  }

  class Program {
    const temp: array<int>
    const a: array<int>
    const b: array<int>
    var d: int

    constructor ()
      ensures fresh(temp) && fresh(a) && fresh(b)
      ensures temp != a && temp != b && a != b
      ensures temp.Length == a.Length == b.Length == MAXLEN
      ensures forall i | 0 <= i < MAXLEN :: a[i] == 0 && b[i] == 0
    {
      temp := new int[MAXLEN](_ => 0);
      a := new int[MAXLEN](_ => 0);
      b := new int[MAXLEN](_ => 0);
    }

    method MemMove(dst: array<int>, dstPos: int, src: array<int>, len: int) returns (i: int)
      requires dst != src && 0 <= dstPos && 0 <= len <= src.Length && dstPos + len <= dst.Length < TWO_31
      modifies dst
      ensures i == len
      ensures dst[..dstPos] == old(dst[..dstPos]) && dst[dstPos + len..] == old(dst[dstPos + len..])
      ensures dst[dstPos..dstPos + len] == src[..len]
    {
      i := 0;
      while i < len
        invariant 0 <= i <= len
        invariant dst[..dstPos] == old(dst[..dstPos]) && dst[dstPos + len..] == old(dst[dstPos + len..])
        invariant dst[dstPos..dstPos + i] == src[..i]
      {
        dst[I32(dstPos + i)] := src[i];
        i := I32(i + 1);
      }
    }

    // Even-indexed coefficients to the front of `temp`, odd-indexed ones behind them.
    method Separate(arr: array<int>, begin: int, n: int)
      requires arr != temp && 0 <= begin && 0 < n <= temp.Length && begin + n <= arr.Length < TWO_31
      requires n % 2 == 0
      modifies temp
      ensures temp[..n / 2] == Evens(arr[begin..begin + n])
      ensures temp[n / 2..n] == Odds(arr[begin..begin + n])
    {
      hide Evens, Odds;
      var i := 0;
      ghost var h := n / 2;
      while i < n
        invariant 0 <= i <= n
        invariant forall k | 0 <= k < h && 2 * k < i :: temp[k] == arr[begin + 2 * k]
        invariant forall k | 0 <= k < h && 2 * k + 1 < i :: temp[h + k] == arr[begin + 2 * k + 1]
      {
        if i % 2 == 0 {
          temp[i / 2] := arr[I32(i + begin)];
        } else {
          temp[I32(n / 2 + i / 2)] := arr[I32(i + begin)];
        }
        i := I32(i + 1);
      }
      Separated(temp[..n], arr[begin..begin + n], h);
      assert temp[..n][..h] == temp[..h] && temp[..n][h..] == temp[h..n];
    }

    // Both halves of the coefficients, moved into place.
    method Deinterleave(arr: array<int>, begin: int, n: int)
      requires arr != temp && 0 <= begin && 0 < n <= temp.Length && begin + n <= arr.Length < TWO_31
      requires n % 2 == 0
      modifies arr, temp
      ensures arr[..begin] == old(arr[..begin]) && arr[begin + n..] == old(arr[begin + n..])
      ensures arr[begin..begin + n / 2] == Evens(old(arr[begin..begin + n]))
      ensures arr[begin + n / 2..begin + n] == Odds(old(arr[begin..begin + n]))
    {
      hide Evens, Odds;
      Separate(arr, begin, n);
      var _ := MemMove(arr, begin, temp, n);
      assert arr[begin..begin + n / 2] == arr[begin..begin + n][..n / 2];
      assert arr[begin + n / 2..begin + n] == arr[begin..begin + n][n / 2..];
      assert temp[..n][..n / 2] == temp[..n / 2] && temp[..n][n / 2..] == temp[n / 2..n];
    }

    // One butterfly on the cells i and i + n/2 of the segment.
    method Cross(arr: array<int>, begin: int, n: int, i: int, wn: int, ghost w: int, ghost s: seq<int>, ghost w2: int)
      requires 0 <= begin && 0 < n && begin + n <= arr.Length < TWO_31 && n % 2 == 0 && 0 <= i < n / 2
      requires |s| == n && Residue(wn) && Cong(wn, Pow(w, i)) && Cong(w2, w * w) && Cong(Pow(w, n / 2), -1)
      requires ValueAt(arr[begin + i], Evens(s), w2, i) && ValueAt(arr[begin + n / 2 + i], Odds(s), w2, i)
      modifies arr
      ensures forall j | 0 <= j < arr.Length && j != begin + i && j != begin + n / 2 + i :: arr[j] == old(arr[j])
      ensures ValueAt(arr[begin + i], s, w, i) && ValueAt(arr[begin + n / 2 + i], s, w, i + n / 2)
    {
      hide Pow, Ev, Cong, ValueAt, Multiply, Evens, Odds;
      var x := arr[I32(begin + i)];
      var y := arr[I32(begin + i + n / 2)];
      InRange(x, Evens(s), w2, i);
      InRange(y, Odds(s), w2, i);
      var p := Multiply(wn, y);
      Butterfly(s, w, w2, i, wn, x, y, p);
      arr[I32(begin + i)] := I32(x + p) % MOD;
      arr[I32(begin + i + n / 2)] := I32(x - p + MOD) % MOD;
    }

    // The butterflies that turn the transforms of the halves into the transform of `s`.
    method Combine(arr: array<int>, begin: int, n: int, w: int, ghost s: seq<int>, ghost w2: int)
      requires 0 <= begin && 0 < n && begin + n <= arr.Length < TWO_31 && n % 2 == 0
      requires |s| == n && Residue(w) && Cong(w2, w * w) && Cong(Pow(w, n / 2), -1)
      requires IsTransform(arr[begin..begin + n / 2], Evens(s), w2)
      requires IsTransform(arr[begin + n / 2..begin + n], Odds(s), w2)
      modifies arr
      ensures arr[..begin] == old(arr[..begin]) && arr[begin + n..] == old(arr[begin + n..])
      ensures IsTransform(arr[begin..begin + n], s, w)
    {
      hide Pow, Ev, Cong, ValueAt, Multiply, Evens, Odds, IsTransform, Combined;
      ghost var old' := arr[..];
      var i := 0;
      var wn := 1;
      FirstPower(w);
      CombineStart(old', begin, n / 2, s, w);
      while i < n / 2
        invariant 0 <= i <= n / 2
        invariant Residue(wn) && Cong(wn, Pow(w, i))
        invariant Combined(arr[..], old', begin, n / 2, i, s, w)
      {
        ghost var now := arr[..];
        HalvesWait(now, old', begin, n / 2, i, s, w, w2);
        Cross(arr, begin, n, i, wn, w, s, w2);
        CombineStep(arr[..], now, old', begin, n / 2, i, s, w);
        NextPower(w, i, wn, Multiply(wn, w));
        wn := Multiply(wn, w);
        i := I32(i + 1);
      }
      CombineEnd(arr[..], old', begin, n / 2, s, w);
    }

    // Replaces the n coefficients at `begin` by the values at the powers of w.
    method Transform(arr: array<int>, begin: int, n: int, w: int) returns (r: int)
      requires arr != temp && 0 <= begin && 0 < n <= temp.Length && begin + n <= arr.Length < TWO_31
      requires IsPow2(n) && Residue(w) && Residues(arr[begin..begin + n])
      requires n > 1 ==> Cong(Pow(w, n / 2), -1)
      modifies arr, temp
      ensures arr[..begin] == old(arr[..begin]) && arr[begin + n..] == old(arr[begin + n..])
      ensures IsTransform(arr[begin..begin + n], old(arr[begin..begin + n]), w)
      decreases n
    {
      hide Pow, Ev, Cong, ValueAt, Multiply, Evens, Odds, IsPow2, Residues, IsTransform;
      ghost var s := arr[begin..begin + n];
      if n == 1 {
        Constant(s, w);
        return 1;
      }
      HalfIsPow2(n);
      var h := n / 2;
      Deinterleave(arr, begin, n);
      var w2 := Multiply(w, w);
      HalfRoot(w, w2, n);
      HalvesInRange(s);
      label Split:
      assert arr[begin + h..begin + n] == Odds(s);
      var _ := Transform(arr, begin, h, w2);
      Slices(arr[..], old@Split(arr[..]), begin, h, n);
      assert arr[begin + h..begin + n] == Odds(s);
      label Half:
      var _ := Transform(arr, I32(begin + h), h, w2);
      Heads(arr[..], old@Half(arr[..]), begin, h);
      Combine(arr, begin, n, w, s, w2);
      r := 0;
    }

    // ----- the program -----

    // Inputs are read into zeroed arrays.
    ghost predicate Loaded(n: int, m: int)
      reads a, b
    {
      && temp != a && temp != b && a != b
      && temp.Length == a.Length == b.Length == MAXLEN
      && 0 <= n <= MAXLEN && 0 <= m <= MAXLEN && n + m - 1 <= MAXLEN
      && Residues(a[..]) && Residues(b[..])
      && (forall i | n <= i < MAXLEN :: a[i] == 0) && (forall i | m <= i < MAXLEN :: b[i] == 0)
    }

    // The least power of two that holds the product.
    method Size(len: int) returns (size: nat)
      requires len <= MAXLEN
      ensures IsPow2(size) && len <= size <= MAXLEN
      ensures size == 1 || size / 2 < len
    {
      size := 1;
      OneIsPow2();
      hide IsPow2;
      while size < len
        invariant 0 < size <= MAXLEN && IsPow2(size)
        invariant size == 1 || size / 2 < len
        decreases len - size
      {
        MaxLenIsPow2();
        NextPow2(size, MAXLEN);
        size := I32(size * 2);
      }
    }

    // a[i] := a[i] * b[i], on transforms of s and t.
    method Pointwise(size: int, w: int, ghost s: seq<int>, ghost t: seq<int>)
      requires a != b && 0 <= size <= a.Length && size <= b.Length && size < TWO_31
      requires IsTransform(a[..size], s, w) && IsTransform(b[..size], t, w)
      modifies a
      ensures Residues(a[..size])
      ensures forall i | 0 <= i < size :: Cong(a[i], Ev(s, Pow(w, i)) * Ev(t, Pow(w, i)))
    {
      hide Pow, Ev, Multiply;
      var i := 0;
      assert forall j | 0 <= j < size :: ValueAt(a[..size][j], s, w, j) && ValueAt(b[..size][j], t, w, j);
      while i < size
        invariant 0 <= i <= size
        invariant b[..] == old(b[..])
        invariant forall j | i <= j < size :: ValueAt(a[j], s, w, j)
        invariant forall j | 0 <= j < size :: ValueAt(b[j], t, w, j)
        invariant forall j | 0 <= j < i :: Residue(a[j]) && Cong(a[j], Ev(s, Pow(w, j)) * Ev(t, Pow(w, j)))
      {
        CongMul(a[i], Ev(s, Pow(w, i)), b[i], Ev(t, Pow(w, i)));
        a[i] := Multiply(a[i], b[i]);
        i := I32(i + 1);
      }
    }

    // Divides by the size, as multiplication by its power mod - 2.
    method Scale(size: nat, ghost c: seq<int>)
      requires IsPow2(size) && size == |c| <= a.Length && size <= MAXLEN
      requires forall k | 0 <= k < size :: Residue(a[k]) && Cong(a[k], size * c[k])
      modifies a
      ensures forall k | 0 <= k < size :: a[k] == c[k] % MOD
    {
      hide Pow, Multiply, Power, Cong;
      var i := 0;
      while i < size
        invariant 0 <= i <= size
        invariant forall j | i <= j < size :: Residue(a[j]) && Cong(a[j], size * c[j])
        invariant forall j | 0 <= j < i :: a[j] == c[j] % MOD
      {
        var inverse := Power(size, MOD - 2);
        var x := Multiply(a[i], inverse);
        Unscale(size, inverse, a[i], c[i], x);
        a[i] := x;
        i := I32(i + 1);
      }
    }

    // The two forward transforms.
    method Forward(size: nat, w: int)
      requires temp != a && temp != b && a != b && temp.Length == a.Length == b.Length == MAXLEN
      requires IsPow2(size) && size <= MAXLEN && Residue(w) && (size > 1 ==> Cong(Pow(w, size / 2), -1))
      requires Residues(a[..size]) && Residues(b[..size])
      modifies a, b, temp
      ensures IsTransform(a[..size], old(a[..size]), w) && IsTransform(b[..size], old(b[..size]), w)
    {
      assert size > 0;
      hide Pow, Ev, Cong, ValueAt, IsPow2;
      assert a[0..size] == a[..size] && b[0..size] == b[..size];
      var _ := Transform(a, 0, size, w);
      assert b[0..size] == old(b[..size]);
      var _ := Transform(b, 0, size, w);
      assert a[0..size] == a[..size] && b[0..size] == b[..size];
    }

    // The inverse transform and the scaling.
    method Backward(size: nat, v: int, ghost w: int, ghost p: seq<int>, ghost q: seq<int>)
      requires temp != a && temp.Length == a.Length == MAXLEN
      requires IsPow2(size) && size <= MAXLEN && |p| <= size && |q| <= size && |p| + |q| <= size + 1
      requires Residue(v) && Cong(w * v, 1)
      requires size > 1 ==> Cong(Pow(w, size / 2), -1) && Cong(Pow(v, size / 2), -1)
      requires Residues(a[..size])
      requires forall i | 0 <= i < size ::
        Cong(a[i], Ev(Padded(p, size), Pow(w, i)) * Ev(Padded(q, size), Pow(w, i)))
      modifies a, temp
      ensures forall k | 0 <= k < size :: a[k] == Product(p, q, size)[k] % MOD
    {
      assert size > 0;
      hide Pow, Ev, Cong, Conv, Values, ValueAt, IsPow2, Padded, Product;
      ghost var h := a[..size];
      assert a[0..size] == h;
      var _ := Transform(a, 0, size, v);
      assert a[0..size] == a[..size];
      Recovered(p, q, size, w, v, h, a[..size]);
      assert forall k | 0 <= k < size :: a[k] == a[..size][k];
      Scale(size, Product(p, q, size));
    }

    // Transform, multiply, transform back, scale: a becomes the product of the polynomials p and q.
    method MultiplyAt(ghost p: seq<int>, ghost q: seq<int>)
      requires temp != a && temp != b && a != b && temp.Length == a.Length == b.Length == MAXLEN
      requires 0 < d <= MAXLEN && IsPow2(d) && |p| <= d && |q| <= d && |p| + |q| <= d + 1
      requires a[..d] == Padded(p, d) && b[..d] == Padded(q, d) && Residues(a[..d]) && Residues(b[..d])
      modifies a, b, temp
      ensures forall k | 0 <= k < d :: a[k] == Product(p, q, d)[k] % MOD
    {
      hide Pow, Ev, Cong, Conv, Power, Values, ValueAt, IsPow2, Padded, Product;
      RootBound(d);
      var w := Power(3, (MOD - 1) / d);
      var v := Power(3, I32(MOD - 1 - (MOD - 1) / d));
      Roots(d, w, v);
      Forward(d, w);
      Pointwise(d, w, Padded(p, d), Padded(q, d));
      Backward(d, v, w, p, q);
    }

    // Leaves in a[0..n + m - 2] the coefficients of the product of the two inputs.
    method Convolve(n: int, m: int)
      requires Loaded(n, m)
      modifies this, a, b, temp
      ensures forall k | 0 <= k < n + m - 1 :: a[k] == Conv(old(a[..n]), old(b[..m]), k) % MOD
    {
      hide Pow, Ev, Cong, Conv, Power, IsPow2;
      d := Size(I32(n + m - 1));
      ghost var p := a[..if n <= d then n else d];
      ghost var q := b[..if m <= d then m else d];
      assert a[..d] == Padded(p, d) && b[..d] == Padded(q, d);
      assert Residues(a[..d]) && Residues(b[..d]);
      SameProduct(a[..], b[..], n, m, d, p, q);
      MultiplyAt(p, q);
    }
  }

  // A constant polynomial is its own transform.
  lemma Constant(s: seq<int>, w: int)
    requires |s| == 1 && Residues(s)
    ensures IsTransform(s, s, w)
  {
    assert Pow(w, 0) == 1;
    assert Ev(s, 1) == s[0] + 1 * Ev(s[1..], 1);
  }

  lemma HalvesInRange(s: seq<int>)
    requires Residues(s)
    ensures Residues(Evens(s)) && Residues(Odds(s))
  {
  }

  lemma InRange(v: int, s: seq<int>, w: int, k: nat)
    requires ValueAt(v, s, w, k)
    ensures Residue(v)
  {
  }

  lemma FirstPower(w: int)
    ensures Cong(1, Pow(w, 0))
  {
  }

  lemma NextPower(w: int, i: nat, wn: int, r: int)
    requires Cong(wn, Pow(w, i)) && Cong(r, wn * w)
    ensures Cong(r, Pow(w, i + 1))
  {
    CongMul(wn, Pow(w, i), w, w);
    assert Pow(w, i + 1) == w * Pow(w, i);
  }

  // The square of an n-th root of unity is an n/2-th root of unity.
  lemma HalfRoot(w: int, w2: int, n: nat)
    requires n > 1 && IsPow2(n) && Cong(w2, w * w) && Cong(Pow(w, n / 2), -1)
    ensures n / 2 > 1 ==> Cong(Pow(w2, n / 2 / 2), -1)
  {
    if n / 2 > 1 {
      var m := n / 2 / 2;
      CongPow(w2, w * w, m);
      PowMulBase(w, w, m);
      PowAdd(w, m, m);
      assert m + m == n / 2;
    }
  }

  // What a change confined to [b, b + h) leaves of the second half and beyond.
  lemma Slices(x: seq<int>, y: seq<int>, b: nat, h: nat, n: nat)
    requires |x| == |y| && h <= n && b + n <= |x|
    requires x[b + h..] == y[b + h..]
    ensures x[b + h..b + n] == y[b + h..b + n] && x[b + n..] == y[b + n..]
  {
    assert x[b + h..b + n] == x[b + h..][..n - h] && x[b + n..] == x[b + h..][n - h..];
    assert y[b + h..b + n] == y[b + h..][..n - h] && y[b + n..] == y[b + h..][n - h..];
  }

  // What a change beyond b + h leaves of the first half and before.
  lemma Heads(x: seq<int>, y: seq<int>, b: nat, h: nat)
    requires |x| == |y| && b + h <= |x|
    requires x[..b + h] == y[..b + h]
    ensures x[b..b + h] == y[b..b + h] && x[..b] == y[..b]
  {
    assert x[b..b + h] == x[..b + h][b..] && x[..b] == x[..b + h][..b];
    assert y[b..b + h] == y[..b + h][b..] && y[..b] == y[..b + h][..b];
  }

  // ----- powers of two -----

  lemma MaxLenIsPow2()
    ensures IsPow2(MAXLEN)
  {
    assert IsPow2(MAXLEN / 1024) by {
      assert IsPow2(2048 / 1024) && IsPow2(2048 / 256) && IsPow2(2048 / 32) && IsPow2(2048 / 4);
    }
    assert IsPow2(MAXLEN / 256);
    assert IsPow2(MAXLEN / 64);
    assert IsPow2(MAXLEN / 16);
    assert IsPow2(MAXLEN / 4);
  }

  lemma HalfIsPow2(n: nat)
    requires IsPow2(n) && n > 1
    ensures n % 2 == 0 && IsPow2(n / 2)
  {
  }

  lemma OneIsPow2()
    ensures IsPow2(1)
  {
  }

  lemma {:induction false} NextPow2(x: nat, y: nat)
    requires IsPow2(x) && IsPow2(y) && x < y
    ensures 2 * x <= y && IsPow2(2 * x)
  {
    if x == 1 {
    } else {
      NextPow2(x / 2, y / 2);
    }
  }

  lemma {:induction false} Pow2Divides(x: nat, y: nat) returns (q: nat)
    requires IsPow2(x) && IsPow2(y) && x <= y
    ensures y == x * q
  {
    if x == 1 {
      q := y;
    } else {
      q := Pow2Divides(x / 2, y / 2);
      assert y == 2 * (x / 2 * q) == x * q;
    }
  }

  // The size divides MOD - 1.
  lemma SizeDivides(d: nat)
    requires IsPow2(d) && d <= MAXLEN
    ensures d * ((MOD - 1) / d) == MOD - 1
    ensures d > 1 ==> (MOD - 1) / d * (d / 2) == (MOD - 1) / 2
  {
    MaxLenIsPow2();
    var q := Pow2Divides(d, MAXLEN);
    Commute(476, d, q);
    ExactDivision(d, 476 * q, MOD - 1);
    if d > 1 {
      HalfProduct(476 * q, d, MOD - 1);
    }
  }

  lemma Commute(x: int, y: int, z: int)
    ensures x * (y * z) == y * (x * z)
  {
  }

  lemma HalfProduct(e: int, d: nat, x: int)
    requires d % 2 == 0 && d * e == x
    ensures e * (d / 2) == x / 2
  {
    var h := d / 2;
    assert d == 2 * h;
    assert d * e == 2 * (e * h);
  }

  // Multiples of d are at least d apart.
  lemma Apart(d: int, t: int)
    requires d > 0
    ensures t >= 1 ==> d * t >= t && d * t >= d
    ensures t <= -1 ==> d * t <= -d
  {
    if t >= 1 {
      assert d * t == d + d * (t - 1) == t + (d - 1) * t;
    } else if t <= -1 {
      assert d * t == -d + d * (t + 1);
    }
  }

  lemma RootBound(d: nat)
    requires IsPow2(d) && d <= MAXLEN
    ensures 0 <= (MOD - 1) / d <= MOD - 1
  {
    SizeDivides(d);
    Apart(d, (MOD - 1) / d);
  }

  lemma ExactDivision(d: nat, q: nat, x: nat)
    requires d > 0 && x == d * q
    ensures x / d == q
  {
    var r := x / d;
    assert d * r <= x < d * r + d;
    assert d * q - d * r == d * (q - r);
    Apart(d, q - r);
  }

  // w is a root of unity of order d and v its inverse.
  lemma Roots(d: nat, w: int, v: int)
    requires IsPow2(d) && d <= MAXLEN
    requires Cong(w, Pow(3, (MOD - 1) / d)) && Cong(v, Pow(3, MOD - 1 - (MOD - 1) / d))
    ensures Cong(w * v, 1)
    ensures d > 1 ==> Cong(Pow(w, d / 2), -1) && Cong(Pow(v, d / 2), -1)
  {
    hide Pow;
    var e := (MOD - 1) / d;
    SizeDivides(d);
    MinusOne();
    var half := (MOD - 1) / 2;
    CongMul(w, Pow(3, e), v, Pow(3, MOD - 1 - e));
    PowAdd(3, e, MOD - 1 - e);
    PowAdd(3, half, half);
    CongMul(Pow(3, half), -1, Pow(3, half), -1);
    assert half + half == MOD - 1;
    if d > 1 {
      CongPow(w, Pow(3, e), d / 2);
      PowPow(3, e, d / 2);
      assert Cong(Pow(w, d / 2), -1);
      PowMulBase(w, v, d / 2);
      CongPow(w * v, 1, d / 2);
      PowOne(d / 2);
      CongMul(Pow(w, d / 2), -1, Pow(v, d / 2), Pow(v, d / 2));
      assert Cong(-Pow(v, d / 2), 1);
      CongMul(-1, -1, -Pow(v, d / 2), 1);
    }
  }

  // d^(MOD-1) = 1 for the powers of two.
  lemma {:induction false} SizeOrder(d: nat)
    requires IsPow2(d)
    ensures Cong(Pow(d, MOD - 1), 1)
  {
    hide Pow;
    if d == 1 {
      PowOne(MOD - 1);
    } else {
      SizeOrder(d / 2);
      TwoOrder();
      PowMulBase(2, d / 2, MOD - 1);
      CongMul(Pow(2, MOD - 1), 1, Pow(d / 2, MOD - 1), 1);
      assert d == 2 * (d / 2);
    }
  }

  lemma Unscale(d: nat, inverse: int, v: int, c: int, x: int)
    requires IsPow2(d) && Residue(x) && Cong(inverse, Pow(d, MOD - 2)) && Cong(v, d * c) && Cong(x, v * inverse)
    ensures x == c % MOD
  {
    hide Pow, IsPow2;
    SizeOrder(d);
    PowSucc(d, MOD - 2);
    Cancelled(d, Pow(d, MOD - 2), inverse, v, c);
  }

  // Multiplying by the inverse e of d undoes multiplying by d.
  lemma Cancelled(d: int, e: int, inverse: int, v: int, c: int)
    requires Cong(d * e, 1) && Cong(inverse, e) && Cong(v, d * c)
    ensures Cong(v * inverse, c)
  {
    CongMul(v, d * c, inverse, e);
    assert (d * c) * e == c * (d * e);
    CongMul(c, c, d * e, 1);
  }

  lemma PowSucc(x: int, n: nat)
    ensures Pow(x, n + 1) == x * Pow(x, n)
  {
  }

  // The inverse transform of the pointwise product is the size times the product.
  lemma Recovered(p: seq<int>, q: seq<int>, d: nat, w: int, v: int, h: seq<int>, r: seq<int>)
    requires IsPow2(d) && |p| <= d && |q| <= d && |p| + |q| <= d + 1 && |h| == d
    requires Cong(w * v, 1) && (d > 1 ==> Cong(Pow(w, d / 2), -1) && Cong(Pow(v, d / 2), -1))
    requires forall i | 0 <= i < d :: Cong(h[i], Ev(Padded(p, d), Pow(w, i)) * Ev(Padded(q, d), Pow(w, i)))
    requires IsTransform(r, h, v)
    ensures forall k | 0 <= k < d :: Residue(r[k]) && Cong(r[k], d * Product(p, q, d)[k])
  {
    hide Pow, Ev, Conv, Cong;
    var c := Product(p, q, d);
    var values := Values(c, w, d);
    forall i | 0 <= i < d
      ensures Cong(h[i], values[i])
    {
      EvPadded(p, d, Pow(w, i));
      EvPadded(q, d, Pow(w, i));
      EvProduct(p, q, d, Pow(w, i));
    }
    forall k | 0 <= k < d
      ensures Residue(r[k]) && Cong(r[k], d * c[k])
    {
      CongCoeffs(h, values, Pow(v, k));
      Inversion(c, w, v, d, k);
      assert ValueAt(r[k], h, v, k);
      CongTrans(r[k], Ev(h, Pow(v, k)), Ev(values, Pow(v, k)));
      CongTrans(r[k], Ev(values, Pow(v, k)), d * Coef(c, k));
    }
  }

  lemma {:induction false} ConvEmpty(a: seq<int>, k: int)
    ensures Conv(a, [], k) == 0
  {
    if a == [] {
    } else {
      ConvEmpty(a[1..], k - 1);
    }
  }

  // Cutting an input longer than the size is harmless: the other one is then empty.
  lemma SameProduct(a: seq<int>, b: seq<int>, n: nat, m: nat, d: nat, p: seq<int>, q: seq<int>)
    requires n <= |a| && m <= |b| && n + m - 1 <= d
    requires d <= |a| && d <= |b|
    requires p == a[..if n <= d then n else d] && q == b[..if m <= d then m else d]
    ensures forall k | 0 <= k < n + m - 1 :: Conv(p, q, k) == Conv(a[..n], b[..m], k)
  {
    forall k | 0 <= k < n + m - 1
      ensures Conv(p, q, k) == Conv(a[..n], b[..m], k)
    {
      if m == 0 {
        assert q == [] && b[..m] == [];
        ConvEmpty(p, k);
        ConvEmpty(a[..n], k);
      } else if n == 0 {
        assert p == [] && a[..n] == [];
      } else {
        assert p == a[..n] && q == b[..m];
      }
    }
  }
}
