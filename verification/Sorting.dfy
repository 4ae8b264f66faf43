// What a sort promises: order, and a segment permuted in place with the rest untouched.
module Sorting {
  ghost predicate Ordered(s: seq<int>) {
    forall i, j | 0 <= i < j < |s| :: s[i] <= s[j]
  }

  // a is b with the cells lo..hi-1 rearranged.
  ghost predicate Rearranged(a: seq<int>, b: seq<int>, lo: nat, hi: nat)
    requires lo <= hi <= |b|
  {
    |a| == |b| && a[..lo] == b[..lo] && a[hi..] == b[hi..] && multiset(a[lo..hi]) == multiset(b[lo..hi])
  }

  function Swapped(s: seq<int>, i: nat, j: nat): (r: seq<int>)
    requires i < |s| && j < |s|
    ensures |r| == |s|
  {
    s[i := s[j]][j := s[i]]
  }

  lemma SwapRearranges(a: seq<int>, b: seq<int>, lo: nat, hi: nat, i: nat, j: nat)
    requires lo <= hi <= |b| && Rearranged(a, b, lo, hi) && lo <= i < hi && lo <= j < hi
    ensures Rearranged(Swapped(a, i, j), b, lo, hi)
  {
    var t := Swapped(a, i, j);
    assert t[..lo] == a[..lo] && t[hi..] == a[hi..];
    assert t[lo..hi] == Swapped(a[lo..hi], i - lo, j - lo);
  }

  lemma RearrangedTrans(a: seq<int>, b: seq<int>, c: seq<int>, lo: nat, hi: nat)
    requires lo <= hi <= |b| && |b| == |c| && Rearranged(a, b, lo, hi) && Rearranged(b, c, lo, hi)
    ensures Rearranged(a, c, lo, hi)
  {
  }

  // Rearranging part of a segment rearranges the segment.
  lemma RearrangedWiden(a: seq<int>, b: seq<int>, lo: nat, l: nat, h: nat, hi: nat)
    requires lo <= l <= h <= hi <= |b| && Rearranged(a, b, l, h)
    ensures Rearranged(a, b, lo, hi)
  {
    assert a[lo..hi] == a[..l][lo..] + a[l..h] + a[h..][..hi - h];
    assert b[lo..hi] == b[..l][lo..] + b[l..h] + b[h..][..hi - h];
    assert a[..lo] == a[..l][..lo] && a[hi..] == a[h..][hi - h..];
    assert b[..lo] == b[..l][..lo] && b[hi..] == b[h..][hi - h..];
  }

  // Every value of the segment was in the segment.
  lemma RearrangedValue(a: seq<int>, b: seq<int>, lo: nat, hi: nat, k: nat) returns (j: nat)
    requires lo <= hi <= |b| && Rearranged(a, b, lo, hi) && lo <= k < hi
    ensures lo <= j < hi && b[j] == a[k]
  {
    assert a[lo..hi][k - lo] in multiset(a[lo..hi]);
    assert a[k] in b[lo..hi];
    var i :| 0 <= i < hi - lo && b[lo..hi][i] == a[k];
    j := lo + i;
  }

  // The least value comes first.
  lemma FirstIsLeast(a: seq<int>, b: seq<int>)
    requires Ordered(a) && multiset(a) == multiset(b) && b != []
    ensures a != [] && a[0] <= b[0]
  {
    assert b[0] in multiset(a);
    var i :| 0 <= i < |a| && a[i] == b[0];
  }

  lemma Rest(a: seq<int>)
    requires a != []
    ensures multiset(a[1..]) == multiset(a) - multiset{a[0]} && multiset(a) == multiset(a[1..]) + multiset{a[0]}
  {
    assert a == [a[0]] + a[1..];
  }

  // An order and a content leave no freedom.
  lemma {:induction false} OrderedUnique(a: seq<int>, b: seq<int>)
    requires Ordered(a) && Ordered(b) && multiset(a) == multiset(b)
    ensures a == b
  {
    if a == [] {
      assert |multiset(b)| == |b|;
    } else {
      FirstIsLeast(b, a);
      FirstIsLeast(a, b);
      Rest(a);
      Rest(b);
      OrderedUnique(a[1..], b[1..]);
      assert a == [a[0]] + a[1..] && b == [b[0]] + b[1..];
    }
  }

  // How many values are below p.
  function Below(s: seq<int>, p: int): nat {
    if s == [] then 0 else (if s[0] < p then 1 else 0) + Below(s[1..], p)
  }

  lemma {:induction false} BelowAppend(a: seq<int>, b: seq<int>, p: int)
    ensures Below(a + b, p) == Below(a, p) + Below(b, p)
  {
    if a == [] {
      assert a + b == b;
    } else {
      assert (a + b)[1..] == a[1..] + b;
      BelowAppend(a[1..], b, p);
    }
  }

  lemma {:induction false} BelowContent(a: seq<int>, b: seq<int>, p: int)
    requires multiset(a) == multiset(b)
    ensures Below(a, p) == Below(b, p)
  {
    if a == [] {
      assert |multiset(b)| == |b|;
    } else {
      var x := a[0];
      Rest(a);
      assert x in multiset(b);
      var k :| 0 <= k < |b| && b[k] == x;
      Without(b, k, p);
      BelowContent(a[1..], b[..k] + b[k + 1..], p);
    }
  }

  lemma Without(b: seq<int>, k: nat, p: int)
    requires k < |b|
    ensures multiset(b[..k] + b[k + 1..]) == multiset(b) - multiset{b[k]}
    ensures Below(b, p) == Below(b[..k] + b[k + 1..], p) + Below([b[k]], p)
  {
    assert b == b[..k] + [b[k]] + b[k + 1..];
    BelowAppend(b[..k], b[k + 1..], p);
    BelowAppend(b[..k] + [b[k]], b[k + 1..], p);
    BelowAppend(b[..k], [b[k]], p);
  }

  lemma {:induction false} BelowAll(s: seq<int>, p: int)
    requires forall i | 0 <= i < |s| :: s[i] < p
    ensures Below(s, p) == |s|
  {
    if s == [] {
    } else {
      BelowAll(s[1..], p);
    }
  }

  lemma {:induction false} BelowNone(s: seq<int>, p: int)
    requires forall i | 0 <= i < |s| :: s[i] >= p
    ensures Below(s, p) == 0
  {
    if s == [] {
    } else {
      BelowNone(s[1..], p);
    }
  }

  // How many values are v.
  function Count(s: seq<int>, v: int): nat {
    if s == [] then 0 else Count(s[..|s| - 1], v) + (if s[|s| - 1] == v then 1 else 0)
  }

  lemma {:induction false} CountAppend(a: seq<int>, b: seq<int>, v: int)
    ensures Count(a + b, v) == Count(a, v) + Count(b, v)
    decreases |b|
  {
    if b == [] {
      assert a + b == a;
    } else {
      assert (a + b)[..|a + b| - 1] == a + b[..|b| - 1];
      CountAppend(a, b[..|b| - 1], v);
    }
  }

  lemma {:induction false} BelowNext(s: seq<int>, v: int)
    ensures Below(s, v + 1) == Below(s, v) + Count(s, v)
    decreases |s|
  {
    if s == [] {
    } else {
      var t, x := s[..|s| - 1], s[|s| - 1];
      BelowNext(t, v);
      assert s == t + [x];
      BelowAppend(t, [x], v);
      BelowAppend(t, [x], v + 1);
    }
  }

  lemma {:induction false} BelowMonotone(s: seq<int>, p: int, q: int)
    requires p <= q
    ensures Below(s, p) <= Below(s, q) <= |s|
  {
    if s == [] {
    } else {
      BelowMonotone(s[1..], p, q);
    }
  }

  // Where a stable sort puts the k-th value: after the smaller ones and the equal ones before it.
  function Rank(s: seq<int>, k: nat): nat
    requires k < |s|
  {
    Below(s, s[k]) + Count(s[..k], s[k])
  }

  // Equal values before k and before l differ by those between.
  lemma CountBetween(s: seq<int>, k: nat, l: nat)
    requires k < l <= |s|
    ensures Count(s[..k], s[k]) < Count(s[..l], s[k])
  {
    assert s[..l] == s[..k] + [s[k]] + s[k + 1..l];
    CountAppend(s[..k] + [s[k]], s[k + 1..l], s[k]);
    CountAppend(s[..k], [s[k]], s[k]);
  }

  // Ranks are positions, and order the values by size and equal ones by where they stood.
  lemma RankOrder(s: seq<int>, k: nat, l: nat)
    requires k < |s| && l < |s|
    ensures Rank(s, k) < |s|
    ensures Rank(s, k) < Rank(s, l) <==> s[k] < s[l] || (s[k] == s[l] && k < l)
  {
    RankBelowNext(s, k);
    RankBelowNext(s, l);
    if s[k] < s[l] {
      BelowMonotone(s, s[k] + 1, s[l]);
    } else if s[l] < s[k] {
      BelowMonotone(s, s[l] + 1, s[k]);
    } else if k < l {
      CountBetween(s, k, l);
    } else if l < k {
      CountBetween(s, l, k);
    }
  }

  lemma RankBelowNext(s: seq<int>, k: nat)
    requires k < |s|
    ensures Below(s, s[k]) <= Rank(s, k) < Below(s, s[k] + 1) <= |s|
  {
    CountBetween(s, k, |s|);
    assert s[..|s|] == s;
    BelowNext(s, s[k]);
    BelowMonotone(s, s[k] + 1, s[k] + 1);
  }

  // The occurrence of v with c occurrences before it.
  lemma {:induction false} Occurrence(s: seq<int>, v: int, c: nat) returns (k: nat)
    requires c < Count(s, v)
    ensures k < |s| && s[k] == v && Count(s[..k], v) == c
    decreases |s|
  {
    var n := |s| - 1;
    if c < Count(s[..n], v) {
      k := Occurrence(s[..n], v, c);
      assert s[..n][..k] == s[..k];
    } else {
      k := n;
    }
  }

  // Every position is the rank of some value.
  lemma {:induction false} Unrank(s: seq<int>, p: nat, lo: int, hi: int) returns (k: nat)
    requires lo <= hi && Below(s, lo) <= p < Below(s, hi)
    ensures k < |s| && Rank(s, k) == p
    decreases hi - lo
  {
    var v := hi - 1;
    BelowNext(s, v);
    if Below(s, v) <= p {
      k := Occurrence(s, v, p - Below(s, v));
    } else {
      k := Unrank(s, p, lo, v);
    }
  }

  lemma {:induction false} Bijection(s: seq<int>, t: seq<int>, r: seq<nat>)
    requires |s| == |t| == |r| && forall k | 0 <= k < |s| :: r[k] < |s| && t[r[k]] == s[k]
    requires forall k, l | 0 <= k < l < |s| :: r[k] != r[l]
    ensures multiset(s) == multiset(t)
  {
    if s == [] {
    } else {
      var n := |s| - 1;
      var q := r[n];
      var t' := t[..q] + t[q + 1..];
      var r' := seq(n, k requires 0 <= k < n => if r[k] > q then r[k] - 1 else r[k] as int);
      Bijection(s[..n], t', r');
      Removed(s, n);
      Removed(t, q);
      assert s[..n] + s[n + 1..] == s[..n];
    }
  }

  lemma Removed(t: seq<int>, q: nat)
    requires q < |t|
    ensures multiset(t) == multiset(t[..q] + t[q + 1..]) + multiset{t[q]}
  {
    assert t == t[..q] + [t[q]] + t[q + 1..];
  }

  // t is s, stably sorted.
  ghost predicate StablySorted(t: seq<int>, s: seq<int>) {
    |t| == |s| && forall k | 0 <= k < |s| :: Rank(s, k) < |s| && t[Rank(s, k)] == s[k]
  }

  // What that means: the content is that of s, in order; and (RankOrder) equal values keep theirs.
  lemma StablySortedOrdered(t: seq<int>, s: seq<int>)
    requires StablySorted(t, s)
    ensures Ordered(t) && multiset(t) == multiset(s)
  {
    hide Rank;
    forall p, q | 0 <= p < q < |t|
      ensures t[p] <= t[q]
    {
      var k := Position(s, p);
      var l := Position(s, q);
      RankOrder(s, l, k);
    }
    var r := seq(|s|, k requires 0 <= k < |s| => Rank(s, k));
    forall k, l | 0 <= k < l < |s|
      ensures r[k] != r[l]
    {
      RankOrder(s, k, l);
      RankOrder(s, l, k);
    }
    Bijection(s, t, r);
  }

  lemma Position(s: seq<int>, p: nat) returns (k: nat)
    requires p < |s|
    ensures k < |s| && Rank(s, k) == p
  {
    var lo, hi := Bounds(s);
    BelowNone(s, lo);
    BelowAll(s, hi);
    BelowMonotone(s, lo, lo);
    k := Unrank(s, p, lo, hi);
  }

  lemma {:induction false} Bounds(s: seq<int>) returns (lo: int, hi: int)
    ensures lo <= hi && forall i | 0 <= i < |s| :: lo <= s[i] < hi
  {
    lo, hi := 0, 0;
    if s == [] {
    } else {
      lo, hi := Bounds(s[1..]);
      lo := if s[0] < lo then s[0] else lo;
      hi := if s[0] >= hi then s[0] + 1 else hi;
      assert forall i | 1 <= i < |s| :: s[i] == s[1..][i - 1];
    }
  }
}
