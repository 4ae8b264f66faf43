// Counting sort of the values 0..9.
module CountingSort {
  import opened Sorting

  predicate Digits(s: seq<int>) {
    forall k | 0 <= k < |s| :: 0 <= s[k] < 10
  }

  method Sort(iniArr: array<int>, sortedArr: array<int>, n: int) returns (r: int)
    requires iniArr != sortedArr && 0 <= n <= iniArr.Length && n <= sortedArr.Length && Digits(iniArr[..n])
    modifies sortedArr
    ensures StablySorted(sortedArr[..n], iniArr[..n])
    ensures Ordered(sortedArr[..n]) && multiset(sortedArr[..n]) == multiset(iniArr[..n])
    ensures sortedArr[n..] == old(sortedArr[n..])
    ensures r == 0
  {
    hide Below, Count, Rank;
    ghost var s := iniArr[..n];
    var countArr := new int[10];
    Fill(countArr);
    Tally(countArr, iniArr, n);
    Accumulate(countArr, s);
    Distribute(countArr, iniArr, sortedArr, n);
    StablySortedOrdered(sortedArr[..n], iniArr[..n]);
    return 0;
  }

  // From the last value to the first, each to the last free place of its kind.
  method Distribute(countArr: array<int>, iniArr: array<int>, sortedArr: array<int>, n: int)
    requires countArr.Length == 10 && countArr != iniArr && countArr != sortedArr && iniArr != sortedArr
    requires 0 <= n <= iniArr.Length && n <= sortedArr.Length && Digits(iniArr[..n])
    requires forall v | 0 <= v < 10 :: countArr[v] == Below(iniArr[..n], v + 1)
    modifies countArr, sortedArr
    ensures StablySorted(sortedArr[..n], iniArr[..n])
    ensures sortedArr[n..] == old(sortedArr[n..])
  {
    hide Below, Count, Rank;
    ghost var s := iniArr[..n];
    var j := n;
    assert s[..n] == s;
    forall v | 0 <= v < 10
      ensures Below(s, v) + Count(s, v) == Below(s, v + 1)
    {
      BelowNext(s, v);
    }
    while j > 0
      invariant 0 <= j <= n && s == iniArr[..n]
      invariant forall v | 0 <= v < 10 :: countArr[v] == Below(s, v) + Count(s[..j], v)
      invariant forall k | j <= k < n :: Rank(s, k) < n && sortedArr[Rank(s, k)] == s[k]
      invariant sortedArr[n..] == old(sortedArr[n..])
    {
      ghost var v := s[j - 1];
      Last(s, j);
      RankIs(s, j - 1);
      countArr[iniArr[j - 1]] := countArr[iniArr[j - 1]] - 1;
      Distinct(s, j - 1);
      sortedArr[countArr[iniArr[j - 1]]] := iniArr[j - 1];
      j := j - 1;
    }
  }

  method Fill(countArr: array<int>)
    requires countArr.Length == 10
    modifies countArr
    ensures forall v | 0 <= v < 10 :: countArr[v] == 0
  {
    var k := 0;
    while k < 10
      invariant 0 <= k <= 10 && forall v | 0 <= v < k :: countArr[v] == 0
    {
      countArr[k] := 0;
      k := k + 1;
    }
  }

  method Tally(countArr: array<int>, iniArr: array<int>, n: int)
    requires countArr.Length == 10 && countArr != iniArr && 0 <= n <= iniArr.Length && Digits(iniArr[..n])
    requires forall v | 0 <= v < 10 :: countArr[v] == 0
    modifies countArr
    ensures forall v | 0 <= v < 10 :: countArr[v] == Count(iniArr[..n], v)
  {
    ghost var s := iniArr[..n];
    assert s[..n] == s;
    hide Count;
    var i := 0;
    NoneCounted();
    while i < n
      invariant 0 <= i <= n && s == iniArr[..n]
      invariant forall v | 0 <= v < 10 :: countArr[v] == Count(s[..i], v)
    {
      Last(s, i + 1);
      countArr[iniArr[i]] := countArr[iniArr[i]] + 1;
      i := i + 1;
    }
  }

  lemma NoneCounted()
    ensures forall v :: Count([], v) == 0
  {
  }

  // Counts of values become counts of values up to them.
  method Accumulate(countArr: array<int>, ghost s: seq<int>)
    requires countArr.Length == 10 && Digits(s)
    requires forall v | 0 <= v < 10 :: countArr[v] == Count(s, v)
    modifies countArr
    ensures forall v | 0 <= v < 10 :: countArr[v] == Below(s, v + 1)
  {
    hide Count, Below;
    BelowNone(s, 0);
    BelowNext(s, 0);
    var k := 1;
    while k < 10
      invariant 1 <= k <= 10
      invariant forall v | 0 <= v < k :: countArr[v] == Below(s, v + 1)
      invariant forall v | k <= v < 10 :: countArr[v] == Count(s, v)
    {
      BelowNext(s, k);
      countArr[k] := countArr[k] + countArr[k - 1];
      k := k + 1;
    }
  }

  lemma Last(s: seq<int>, j: nat)
    requires 0 < j <= |s|
    ensures forall v :: Count(s[..j], v) == Count(s[..j - 1], v) + if s[j - 1] == v then 1 else 0
  {
    assert s[..j][..j - 1] == s[..j - 1];
  }

  lemma RankIs(s: seq<int>, k: nat)
    requires k < |s|
    ensures Rank(s, k) == Below(s, s[k]) + Count(s[..k], s[k]) < |s|
  {
    RankOrder(s, k, k);
  }

  // No later value has the place of this one.
  lemma Distinct(s: seq<int>, k: nat)
    requires k < |s|
    ensures forall l | k < l < |s| :: Rank(s, l) != Rank(s, k)
  {
    forall l | k < l < |s|
      ensures Rank(s, l) != Rank(s, k)
    {
      RankOrder(s, k, l);
      RankOrder(s, l, k);
    }
  }

  // On the same values, what the counting sort promises (c) and what the quicksort promises (q) is
  // the same sequence.
  lemma AgreesWithQuickSort(s: seq<int>, c: seq<int>, q: seq<int>)
    requires StablySorted(c, s)
    requires Rearranged(q, s, 0, |s|) && Ordered(q[0..|s|])
    ensures c == q
  {
    StablySortedOrdered(c, s);
    assert q[0..|s|] == q && s[0..|s|] == s;
    OrderedUnique(c, q);
  }
}
