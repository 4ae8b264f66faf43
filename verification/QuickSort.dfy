// The three-way quicksort.
module QuickSort {
  import opened Sorting

  // The cells low..i are below the pivot, i+1..j equal to it, j+1..high above it.
  ghost predicate Zones(s: seq<int>, low: int, i: int, j: int, high: int, pivot: int)
    requires 0 <= low && high < |s| && low - 1 <= i <= j <= high
  {
    && (forall k | low <= k <= i :: s[k] < pivot)
    && (forall k | i < k <= j :: s[k] == pivot)
    && (forall k | j < k <= high :: s[k] > pivot)
  }

  method Swap(arr: array<int>, lhs: int, rhs: int)
    requires 0 <= lhs < arr.Length && 0 <= rhs < arr.Length
    modifies arr
    ensures arr[..] == Swapped(old(arr[..]), lhs, rhs)
  {
    var temp := arr[lhs];
    arr[lhs] := arr[rhs];
    arr[rhs] := temp;
  }

  method Partition(arr: array<int>, low: int, high: int, res: array<int>)
    requires 0 <= low <= high < arr.Length && res.Length >= 2 && res != arr
    modifies arr, res
    ensures Rearranged(arr[..], old(arr[..]), low, high + 1)
    ensures low - 1 <= res[0] < res[1] <= high
    ensures Zones(arr[..], low, res[0], res[1], high, old(arr[high]))
    ensures forall m | 2 <= m < res.Length :: res[m] == old(res[m])
  {
    hide Pending, Zones, Rearranged, Swapped;
    var i, j, k := low - 1, low - 1, low;
    ghost var s := arr[..];
    NonePlaced(s, low, high);
    while k < high
      invariant low - 1 <= i <= j < k <= high
      invariant Pending(arr[..], s, low, i, j, k, high)
      invariant res[..] == old(res[..])
    {
      ghost var t := arr[..];
      if arr[k] < arr[high] {
        i := i + 1;
        j := j + 1;
        PlaceBelow(t, s, low, i, j, k, high);
        Swap(arr, k, i);
        ghost var u := arr[..];
        assert arr[k] == u[k] && arr[high] == u[high];
        if arr[k] == arr[high] {
          Swap(arr, k, j);
        }
      } else if arr[k] == arr[high] {
        j := j + 1;
        PlaceEqual(t, s, low, i, j, k, high);
        Swap(arr, k, j);
      } else {
        PlaceAbove(t, s, low, i, j, k, high);
      }
      k := k + 1;
    }
    j := j + 1;
    PlacePivot(arr[..], s, low, i, j, high);
    Swap(arr, j, high);
    res[0] := i;
    res[1] := j;
  }

  // ----- what one placement does to the zones; the pivot waits at `high` -----

  // s is what became of s0 when the cells below k are in their zones.
  ghost predicate Pending(s: seq<int>, s0: seq<int>, low: int, i: int, j: int, k: int, high: int) {
    && 0 <= low <= k <= high < |s0| == |s| && low - 1 <= i <= j < k
    && Rearranged(s, s0, low, high + 1) && s[high] == s0[high] && Zones(s, low, i, j, k - 1, s0[high])
  }

  lemma NonePlaced(s: seq<int>, low: int, high: int)
    requires 0 <= low <= high < |s|
    ensures Pending(s, s, low, low - 1, low - 1, low, high)
  {
  }

  // A value below the pivot. The first swap may take the first cell of the equal zone; the second
  // one puts it back behind that zone.
  lemma PlaceBelow(s: seq<int>, s0: seq<int>, low: int, i: int, j: int, k: int, high: int)
    requires Pending(s, s0, low, i - 1, j - 1, k, high) && k < high && s[k] < s[high]
    ensures var t := Swapped(s, k, i);
      Pending(if t[k] == t[high] then Swapped(t, k, j) else t, s0, low, i, j, k + 1, high)
  {
    hide Rearranged, Zones, Swapped;
    var t := Swapped(s, k, i);
    ZonesBelow(s, low, i - 1, j - 1, k, high);
    SwapRearranges(s, s0, low, high + 1, k, i);
    if t[k] == t[high] {
      SwapRearranges(t, s0, low, high + 1, k, j);
    }
  }

  lemma ZonesBelow(s: seq<int>, low: int, i: int, j: int, k: int, high: int)
    requires 0 <= low <= k < high < |s| && low - 1 <= i <= j < k
    requires Zones(s, low, i, j, k - 1, s[high]) && s[k] < s[high]
    ensures var t := Swapped(s, k, i + 1); var u := Swapped(t, k, j + 1);
      && t[high] == s[high] && u[high] == s[high]
      && if t[k] == s[high] then Zones(u, low, i + 1, j + 1, k, s[high]) else Zones(t, low, i + 1, j + 1, k, s[high])
  {
  }

  lemma PlaceEqual(s: seq<int>, s0: seq<int>, low: int, i: int, j: int, k: int, high: int)
    requires Pending(s, s0, low, i, j - 1, k, high) && k < high && s[k] == s[high]
    ensures Pending(Swapped(s, k, j), s0, low, i, j, k + 1, high)
  {
    hide Rearranged;
    SwapRearranges(s, s0, low, high + 1, k, j);
  }

  lemma PlaceAbove(s: seq<int>, s0: seq<int>, low: int, i: int, j: int, k: int, high: int)
    requires Pending(s, s0, low, i, j, k, high) && k < high && s[k] > s[high]
    ensures Pending(s, s0, low, i, j, k + 1, high)
  {
    hide Rearranged;
  }

  lemma PlacePivot(s: seq<int>, s0: seq<int>, low: int, i: int, j: int, high: int)
    requires Pending(s, s0, low, i, j - 1, high, high)
    ensures Zones(Swapped(s, j, high), low, i, j, high, s0[high]) && Rearranged(Swapped(s, j, high), s0, low, high + 1)
  {
    hide Rearranged;
    SwapRearranges(s, s0, low, high + 1, j, high);
  }

  lemma Same(s: seq<int>, lo: nat, hi: nat)
    requires lo <= hi <= |s|
    ensures Rearranged(s, s, lo, hi)
  {
  }

  // The boundaries are forced: they count the values of the segment below, and up to, the pivot.
  lemma ZoneBoundaries(s: seq<int>, t: seq<int>, low: nat, i: int, j: int, high: nat, pivot: int)
    requires low <= high < |t| && Rearranged(s, t, low, high + 1)
    requires low - 1 <= i <= j <= high && Zones(s, low, i, j, high, pivot)
    ensures i == low - 1 + Below(t[low..high + 1], pivot)
    ensures j == low - 1 + Below(t[low..high + 1], pivot + 1)
  {
    Boundary(s, t, low, i, high, pivot);
    Boundary(s, t, low, j, high, pivot + 1);
  }

  lemma Boundary(s: seq<int>, t: seq<int>, low: nat, i: int, high: nat, pivot: int)
    requires low <= high < |t| && Rearranged(s, t, low, high + 1) && low - 1 <= i <= high
    requires (forall k | low <= k <= i :: s[k] < pivot) && (forall k | i < k <= high :: s[k] >= pivot)
    ensures i == low - 1 + Below(t[low..high + 1], pivot)
  {
    BelowContent(s[low..high + 1], t[low..high + 1], pivot);
    assert s[low..high + 1] == s[low..i + 1] + s[i + 1..high + 1];
    BelowAppend(s[low..i + 1], s[i + 1..high + 1], pivot);
    BelowAll(s[low..i + 1], pivot);
    BelowNone(s[i + 1..high + 1], pivot);
  }

  method Sort(arr: array<int>, low: int, high: int)
    requires 0 <= low && high < arr.Length && low <= high + 1
    modifies arr
    ensures Rearranged(arr[..], old(arr[..]), low, high + 1)
    ensures Ordered(arr[low..high + 1])
    decreases high - low
  {
    hide Rearranged, Ordered, Zones;
    ghost var s := arr[..];
    if low < high {
      var res := new int[2];
      Partition(arr, low, high, res);
      var i, j := res[0], res[1];
      ghost var s1 := arr[..];
      Sort(arr, low, i);
      ghost var s2 := arr[..];
      assert s2[low..i + 1] == arr[low..i + 1];
      Sort(arr, j + 1, high);
      ghost var s3 := arr[..];
      assert s3[j + 1..high + 1] == arr[j + 1..high + 1];
      Assembled(s, s1, s2, s3, low, i, j, high);
      assert arr[low..high + 1] == s3[low..high + 1];
    } else {
      Same(s, low, high + 1);
      Single(s[low..high + 1]);
    }
  }

  lemma Single(s: seq<int>)
    requires |s| <= 1
    ensures Ordered(s)
  {
  }

  // Rearranging inside one zone keeps the zones.
  lemma ZonesKept(s: seq<int>, t: seq<int>, low: nat, i: int, j: int, high: nat, pivot: int, lo: nat, hi: nat)
    requires low <= high < |t| && low - 1 <= i < j <= high && Zones(t, low, i, j, high, pivot)
    requires (lo == low && hi == i + 1) || (lo == j + 1 && hi == high + 1)
    requires Rearranged(s, t, lo, hi)
    ensures Zones(s, low, i, j, high, pivot)
  {
    forall k | 0 <= k < |s|
      ensures if lo <= k < hi then exists m :: lo <= m < hi && t[m] == s[k] else s[k] == t[k]
    {
      if lo <= k < hi {
        var m := RearrangedValue(s, t, lo, hi, k);
      } else if k < lo {
        assert s[..lo][k] == t[..lo][k];
      } else {
        assert s[hi..][k - hi] == t[hi..][k - hi];
      }
    }
  }

  // A stretch that the rearranged segment does not meet.
  lemma Outside(s: seq<int>, t: seq<int>, lo: nat, hi: nat, l: nat, h: nat)
    requires lo <= hi <= |t| && Rearranged(s, t, lo, hi) && l <= h <= lo
    ensures s[l..h] == t[l..h]
  {
    assert s[l..h] == s[..lo][l..h] && t[l..h] == t[..lo][l..h];
  }

  // The partition, then the lower part, then the upper part.
  lemma Assembled(s: seq<int>, s1: seq<int>, s2: seq<int>, s3: seq<int>, low: nat, i: int, j: int, high: nat)
    requires low <= high < |s| && low - 1 <= i < j <= high
    requires Rearranged(s1, s, low, high + 1) && |s1| == |s2| == |s3| == |s| && Zones(s1, low, i, j, high, s[high])
    requires Rearranged(s2, s1, low, i + 1) && Ordered(s2[low..i + 1])
    requires Rearranged(s3, s2, j + 1, high + 1) && Ordered(s3[j + 1..high + 1])
    ensures Rearranged(s3, s, low, high + 1) && Ordered(s3[low..high + 1])
  {
    hide Rearranged, Zones, Ordered;
    AllRearranged(s, s1, s2, s3, low, i, j, high);
    ZonesKept(s2, s1, low, i, j, high, s[high], low, i + 1);
    ZonesKept(s3, s2, low, i, j, high, s[high], j + 1, high + 1);
    Outside(s3, s2, j + 1, high + 1, low, i + 1);
    InOrder(s3, low, i, j, high, s[high]);
  }

  lemma AllRearranged(s: seq<int>, s1: seq<int>, s2: seq<int>, s3: seq<int>, low: nat, i: int, j: int, high: nat)
    requires low <= high < |s| && low - 1 <= i < j <= high && |s1| == |s2| == |s3| == |s|
    requires Rearranged(s1, s, low, high + 1) && Rearranged(s2, s1, low, i + 1) && Rearranged(s3, s2, j + 1, high + 1)
    ensures Rearranged(s3, s, low, high + 1)
  {
    hide Rearranged;
    RearrangedWiden(s2, s1, low, low, i + 1, high + 1);
    RearrangedWiden(s3, s2, low, j + 1, high + 1, high + 1);
    RearrangedTrans(s2, s1, s, low, high + 1);
    RearrangedTrans(s3, s2, s, low, high + 1);
  }

  lemma InOrder(s: seq<int>, low: nat, i: int, j: int, high: nat, pivot: int)
    requires low <= high < |s| && low - 1 <= i < j <= high && Zones(s, low, i, j, high, pivot)
    requires Ordered(s[low..i + 1]) && Ordered(s[j + 1..high + 1])
    ensures Ordered(s[low..high + 1])
  {
    forall x, y | low <= x < y <= high
      ensures s[x] <= s[y]
    {
      if y <= i {
        assert s[low..i + 1][x - low] <= s[low..i + 1][y - low];
      } else if x > j {
        assert s[j + 1..high + 1][x - j - 1] <= s[j + 1..high + 1][y - j - 1];
      }
    }
  }
}
