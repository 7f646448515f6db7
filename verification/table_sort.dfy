/** `table.sort`: the quicksort of `ltablib.c`, on positions counted from 0. */
module TableSort {
  import opened SortOrder
  import opened TableSizes

  /** `set2`, as it is used: two elements change places. */
  method Swap<T>(a: array<T>, i: int, j: int, ghost lo: int, ghost hi: int)
    requires 0 <= lo <= i < hi <= a.Length && lo <= j < hi
    modifies a
    ensures a[i] == old(a[j]) && a[j] == old(a[i]) && forall p :: 0 <= p < a.Length && p != i && p != j ==> a[p] == old(a[p])
    ensures Perm(old(a[..]), a[..], lo, hi)
  {
    PermSwap(a[..], i, j, lo, hi);
    a[i], a[j] := a[j], a[i];
  }

  /** Two elements are put in order. */
  method Order<T(!new)>(less: (T, T) -> bool, a: array<T>, i: int, j: int, ghost lo: int, ghost hi: int) returns (swapped: bool)
    requires StrictWeak(less) && 0 <= lo <= i < j < hi <= a.Length
    modifies a
    ensures Perm(old(a[..]), a[..], lo, hi) && Le(less, a[i], a[j])
    ensures forall p :: 0 <= p < a.Length && p != i && p != j ==> a[p] == old(a[p])
    ensures if swapped then a[i] == old(a[j]) && a[j] == old(a[i]) && less(a[i], a[j]) else a[i] == old(a[i]) && a[j] == old(a[j])
  {
    swapped := less(a[j], a[i]);
    if swapped {
      LessLe(less, a[j], a[i]);
      hide StrictWeak;
      Swap(a, i, j, lo, hi);
    } else {
      PermSelf(a[..], lo, hi);
    }
  }

  lemma AllLess<T(!new)>(less: (T, T) -> bool)
    requires StrictWeak(less)
    ensures forall x, y :: less(x, y) ==> Le(less, x, y)
    ensures forall x :: !less(x, x)
  {}

  lemma LeSelf<T(!new)>(less: (T, T) -> bool, x: T)
    requires StrictWeak(less)
    ensures Le(less, x, x)
  {}

  lemma LessLe<T(!new)>(less: (T, T) -> bool, x: T, y: T)
    requires StrictWeak(less) && less(x, y)
    ensures Le(less, x, y)
  {}

  /** The first, the middle and the last element are put in order. */
  method MedianOfThree<T(!new)>(less: (T, T) -> bool, a: array<T>, l: int, u: int) returns (i: int)
    requires StrictWeak(less) && 0 <= l < u < a.Length
    modifies a
    ensures Perm(old(a[..]), a[..], l, u + 1)
    ensures i == (l + u) / 2 && l <= i < u
    ensures Le(less, a[l], a[u])
    ensures u - l >= 2 ==> l < i && Le(less, a[l], a[i]) && Le(less, a[i], a[u])
  {
    hide Perm, StrictWeak, Le;
    ghost var s := a[..];
    var swapped := Order(less, a, l, u, l, u + 1);
    i := (l + u) / 2;
    if u - l == 1 { return; }
    ghost var t := a[..];
    PlaceMiddle(less, a, l, u, i);
    PermTrans(s, t, a[..], l, u + 1);
  }

  /** The middle element comes between the other two. */
  method PlaceMiddle<T(!new)>(less: (T, T) -> bool, a: array<T>, l: int, u: int, i: int)
    requires StrictWeak(less) && 0 <= l < i < u < a.Length && Le(less, a[l], a[u])
    modifies a
    ensures Perm(old(a[..]), a[..], l, u + 1)
    ensures Le(less, a[l], a[i]) && Le(less, a[i], a[u]) && Le(less, a[l], a[u])
  {
    hide Perm, StrictWeak, Le;
    ghost var s := a[..];
    var swapped := Order(less, a, l, i, l, u + 1);
    if swapped {
      LeTrans(less, a[l], a[i], a[u]);
    } else {
      ghost var t := a[..];
      swapped := Order(less, a, i, u, l, u + 1);
      PermTrans(s, t, a[..], l, u + 1);
      if swapped { LeTrans(less, a[l], a[i], a[u]); }
    }
  }

  /** Nothing from `l` up to `i` is greater than the pivot. */
  ghost predicate Low<T>(less: (T, T) -> bool, s: seq<T>, l: int, i: int, P: T)
    requires 0 <= l <= i <= |s|
  {
    forall p :: l <= p < i ==> Le(less, s[p], P)
  }

  /** Nothing from `j` up to `u` is less than the pivot. */
  ghost predicate High<T>(less: (T, T) -> bool, s: seq<T>, j: int, u: int, P: T)
    requires 0 <= j <= u <= |s|
  {
    forall q :: j <= q < u ==> Le(less, P, s[q])
  }

  /** Up from `i` to the first element that is not less than the pivot.  The
      comparisons stop before the end of the window: the source's "invalid order
      function" is never raised. */
  method ScanUp<T(!new)>(less: (T, T) -> bool, a: array<T>, start: int, u: int, P: T, ghost l: int) returns (i: int)
    requires StrictWeak(less) && 0 <= l <= start < u - 1 && u < a.Length && a[u - 1] == P && Low(less, a[..], l, start + 1, P)
    ensures start < i < u && Le(less, P, a[i]) && Low(less, a[..], l, i, P)
  {
    AllLess(less);
    hide StrictWeak;
    i := start + 1;
    while less(a[i], P)
      invariant start < i < u && forall p :: l <= p < i ==> Le(less, a[p], P)
      decreases u - i
    {
      assert i <= u - 2;
      i := i + 1;
    }
  }

  /** Down from `j` to the first element that is not greater. */
  method ScanDown<T(!new)>(less: (T, T) -> bool, a: array<T>, start: int, l: int, P: T, ghost u: int) returns (j: int)
    requires StrictWeak(less) && 0 <= l < start < u <= a.Length && Le(less, a[l], P) && High(less, a[..], start, u, P)
    ensures l <= j < start && Le(less, a[j], P) && High(less, a[..], j + 1, u, P)
  {
    AllLess(less);
    hide StrictWeak;
    j := start - 1;
    while less(P, a[j])
      invariant l <= j < start && forall q :: j < q < u ==> Le(less, P, a[q])
      decreases j
    {
      assert j > l;
      j := j - 1;
    }
  }

  /** The two scans and the swaps: in the end nothing before `i` is greater than
      the pivot, and nothing from `i` on is less. */
  method Scan<T(!new)>(less: (T, T) -> bool, a: array<T>, l: int, u: int, P: T) returns (i: int)
    requires StrictWeak(less) && 0 <= l && l + 3 <= u < a.Length && a[u - 1] == P && Le(less, a[l], P) && Le(less, P, a[u])
    modifies a
    ensures Perm(old(a[..]), a[..], l, u + 1)
    ensures l < i < u && a[u - 1] == P && Low(less, a[..], l, i, P) && High(less, a[..], i, u + 1, P)
  {
    hide Perm, StrictWeak, Le, Low, High;
    ghost var s := a[..];
    PermSelf(s, l, u + 1);
    i := l;
    var j := u - 1;
    ScanStart(less, a[..], l, u, P);
    while true
      invariant l <= i <= j < u && i <= u - 2 && l < j && a[u - 1] == P && Le(less, a[l], P)
      invariant Perm(s, a[..], l, u + 1) && Low(less, a[..], l, i + 1, P) && High(less, a[..], j, u + 1, P)
      decreases j - i
    {
      var done;
      done, i, j := ScanRound(less, a, i, j, l, u, P, s);
      if done { return; }
    }
  }

  lemma HighFrom<T>(less: (T, T) -> bool, s: seq<T>, j: int, i: int, u: int, P: T)
    requires 0 <= j <= i <= u <= |s| && High(less, s, j, u, P)
    ensures High(less, s, i, u, P)
  {}

  lemma Exchanged<T>(less: (T, T) -> bool, s: seq<T>, t: seq<T>, l: int, u: int, i: int, j: int, P: T)
    requires 0 <= l < i <= j < u <= |s| == |t| && t[i] == s[j] && t[j] == s[i]
    requires forall p :: 0 <= p < |s| && p != i && p != j ==> t[p] == s[p]
    requires Low(less, s, l, i, P) && High(less, s, j + 1, u, P) && Le(less, P, s[i]) && Le(less, s[j], P)
    ensures Low(less, t, l, i + 1, P) && High(less, t, j, u, P) && Le(less, t[l], P)
  {}

  /** One round: an element comes to its place between the smaller and the greater
      ones; windows of up to three elements get sorted. */
  method Partition<T(!new)>(less: (T, T) -> bool, a: array<T>, l: int, u: int) returns (done: bool, i: int)
    requires StrictWeak(less) && 0 <= l < u < a.Length
    modifies a
    ensures Perm(old(a[..]), a[..], l, u + 1)
    ensures done ==> Sorted(less, a[..], l, u + 1)
    ensures !done ==> u - l >= 3 && l < i < u && Split(less, a[..], l, u + 1, i)
  {
    hide Perm, StrictWeak, Le, Sorted, Split;
    ghost var s := a[..];
    i := MedianOfThree(less, a, l, u);
    if u - l <= 2 {
      SortedSmall(less, a[..], l, u, i);
      return true, i;
    }
    ghost var t := a[..];
    i := Settle(less, a, l, u, i);
    PermTrans(s, t, a[..], l, u + 1);
    done := false;
  }

  /** One round: a pair on the wrong sides is exchanged, or the scans have met. */
  method ScanRound<T(!new)>(less: (T, T) -> bool, a: array<T>, i0: int, j0: int, l: int, u: int, P: T, ghost s: seq<T>)
    returns (done: bool, i: int, j: int)
    requires StrictWeak(less) && 0 <= l <= i0 <= j0 < u < a.Length == |s| && i0 <= u - 2 && l < j0 && a[u - 1] == P && Le(less, a[l], P)
    requires Perm(s, a[..], l, u + 1) && Low(less, a[..], l, i0 + 1, P) && High(less, a[..], j0, u + 1, P)
    modifies a
    ensures l <= i0 < i < u && l <= j < j0 && a[u - 1] == P && Perm(s, a[..], l, u + 1)
    ensures if done then Low(less, a[..], l, i, P) && High(less, a[..], i, u + 1, P)
            else i <= j && i <= u - 2 && l < j && Le(less, a[l], P) && Low(less, a[..], l, i + 1, P) && High(less, a[..], j, u + 1, P)
  {
    hide Perm, StrictWeak, Le, Low, High;
    i := ScanUp(less, a, i0, u, P, l);
    j := ScanDown(less, a, j0, l, P, u + 1);
    ghost var t := a[..];
    done := j < i;
    if done {
      HighFrom(less, t, j + 1, i, u + 1, P);
    } else {
      Swap(a, i, j, l, u + 1);
      PermTrans(s, t, a[..], l, u + 1);
      Exchanged(less, t, a[..], l, u + 1, i, j, P);
    }
  }

  lemma ScanStart<T(!new)>(less: (T, T) -> bool, s: seq<T>, l: int, u: int, P: T)
    requires StrictWeak(less) && 0 <= l && l + 3 <= u < |s| && s[u - 1] == P && Le(less, s[l], P) && Le(less, P, s[u])
    ensures Low(less, s, l, l + 1, P) && High(less, s, u - 1, u + 1, P)
  {
    LeSelf(less, P);
    hide StrictWeak, Le;
  }

  /** The pivot `a[m]` waits next to the last element while the others are
      exchanged, and then comes to its place. */
  method Settle<T(!new)>(less: (T, T) -> bool, a: array<T>, l: int, u: int, m: int) returns (i: int)
    requires StrictWeak(less) && 0 <= l < m < u < a.Length && u - l >= 3 && Le(less, a[l], a[m]) && Le(less, a[m], a[u])
    modifies a
    ensures Perm(old(a[..]), a[..], l, u + 1) && l < i < u && Split(less, a[..], l, u + 1, i)
  {
    hide Perm, StrictWeak, Le, Split, Low, High;
    ghost var s := a[..];
    var pivot := a[m];
    Swap(a, m, u - 1, l, u + 1);
    ghost var t := a[..];
    i := Scan(less, a, l, u, pivot);
    PermTrans(s, t, a[..], l, u + 1);
    t := a[..];
    PlacePivot(less, a, l, u, i);
    PermTrans(s, t, a[..], l, u + 1);
  }

  /** The pivot comes to its place. */
  method PlacePivot<T(!new)>(less: (T, T) -> bool, a: array<T>, l: int, u: int, i: int)
    requires StrictWeak(less) && 0 <= l < i < u < a.Length && Low(less, a[..], l, i, a[u - 1]) && High(less, a[..], i, u + 1, a[u - 1])
    modifies a
    ensures Perm(old(a[..]), a[..], l, u + 1) && Split(less, a[..], l, u + 1, i)
  {
    hide Perm, StrictWeak, Le, Split, Low, High;
    ghost var t := a[..];
    Swap(a, u - 1, i, l, u + 1);
    SplitMade(less, t, a[..], l, u, i);
  }

  lemma SortedSmall<T>(less: (T, T) -> bool, s: seq<T>, l: int, u: int, i: int)
    requires 0 <= l < u < |s| && u - l <= 2 && i == (l + u) / 2 && Le(less, s[l], s[u])
    requires u - l == 2 ==> Le(less, s[l], s[i]) && Le(less, s[i], s[u])
    ensures Sorted(less, s, l, u + 1)
  {}

  /** The exchange that ends a partition. */
  lemma SplitMade<T>(less: (T, T) -> bool, s: seq<T>, t: seq<T>, l: int, u: int, i: int)
    requires 0 <= l < i < u < |s| == |t| && t[u - 1] == s[i] && t[i] == s[u - 1]
    requires forall p :: 0 <= p < |s| && p != i && p != u - 1 ==> t[p] == s[p]
    requires Low(less, s, l, i, s[u - 1]) && High(less, s, i, u + 1, s[u - 1])
    ensures Split(less, t, l, u + 1, i)
  {}

  /** `auxsort`: the window is sorted, its elements are the same, nothing else has
      changed; and calls are nested no deeper than the logarithm of its size. */
  method AuxSort<T(!new)>(less: (T, T) -> bool, a: array<T>, l0: int, u0: int) returns (ghost depth: nat)
    requires StrictWeak(less) && 0 <= l0 <= u0 + 1 <= a.Length
    modifies a
    ensures Perm(old(a[..]), a[..], l0, u0 + 1) && Sorted(less, a[..], l0, u0 + 1)
    ensures depth == 0 || Pow2(depth) <= u0 + 1 - l0
    decreases u0 + 1 - l0, 1
  {
    hide Perm, Sorted, Split, SortedAround, StrictWeak, Pow2;
    ghost var s := a[..];
    PermSelf(s, l0, u0 + 1);
    var l, u := l0, u0;
    depth := 0;
    AroundAll(less, s, l0, u0 + 1);
    while l < u
      invariant l0 <= l <= u + 1 && u <= u0
      invariant Perm(s, a[..], l0, u0 + 1) && SortedAround(less, a[..], l0, u0 + 1, l, u + 1)
      invariant depth == 0 || Pow2(depth) <= u0 + 1 - l0
      decreases u - l
    {
      ghost var t := a[..];
      var done, i := Round(less, a, l0, u0, l, u);
      PermTrans(s, t, a[..], l0, u0 + 1);
      if done { return; }
      t := a[..];
      ghost var d := SmallerSide(less, a, l0, u0, l, u, i);
      PermTrans(s, t, a[..], l0, u0 + 1);
      if d > depth { depth := d; }
      if i - l < u - i { l := i + 1; } else { u := i - 1; }
    }
    AroundNone(less, a[..], l0, u0 + 1, l, u + 1);
  }

  /** Partitioning the window of a greater part. */
  method Round<T(!new)>(less: (T, T) -> bool, a: array<T>, ghost l0: int, ghost u0: int, l: int, u: int) returns (done: bool, i: int)
    requires StrictWeak(less) && 0 <= l0 <= l < u <= u0 < a.Length && SortedAround(less, a[..], l0, u0 + 1, l, u + 1)
    modifies a
    ensures Perm(old(a[..]), a[..], l0, u0 + 1)
    ensures done ==> Sorted(less, a[..], l0, u0 + 1)
    ensures !done ==> l < i < u && SortedAround(less, a[..], l0, u0 + 1, l, u + 1) && Split(less, a[..], l, u + 1, i)
  {
    hide Perm, Sorted, Split, SortedAround, StrictWeak;
    ghost var t := a[..];
    done, i := Partition(less, a, l, u);
    PermWiden(t, a[..], l, u + 1, l0, u0 + 1);
    AroundPerm(less, t, a[..], l0, u0 + 1, l, u + 1);
    if done { AroundDone(less, a[..], l0, u0 + 1, l, u + 1); }
  }

  /** The recursive call, for the smaller side of element `i`. */
  method SmallerSide<T(!new)>(less: (T, T) -> bool, a: array<T>, ghost l0: int, ghost u0: int, l: int, u: int, i: int) returns (ghost depth: nat)
    requires StrictWeak(less) && 0 <= l0 <= l < i < u <= u0 < a.Length
    requires SortedAround(less, a[..], l0, u0 + 1, l, u + 1) && Split(less, a[..], l, u + 1, i)
    modifies a
    ensures Perm(old(a[..]), a[..], l0, u0 + 1)
    ensures if i - l < u - i then SortedAround(less, a[..], l0, u0 + 1, i + 1, u + 1) else SortedAround(less, a[..], l0, u0 + 1, l, i)
    ensures Pow2(depth) <= u0 + 1 - l0
    decreases u0 + 1 - l0, 0
  {
    hide Perm, Sorted, Split, SortedAround, StrictWeak, Pow2;
    ghost var w := a[..];
    if i - l < u - i {
      depth := AuxSort(less, a, l, i - 1);
      SideSorted(less, w, a[..], l0, u0 + 1, l, u + 1, i, l, i, true);
      Deeper(depth, i - l, u0 + 1 - l0);
    } else {
      depth := AuxSort(less, a, i + 1, u);
      SideSorted(less, w, a[..], l0, u0 + 1, l, u + 1, i, i + 1, u + 1, false);
      Deeper(depth, u - i, u0 + 1 - l0);
    }
    depth := depth + 1;
  }

  /** One side of a split has been sorted. */
  lemma SideSorted<T(!new)>(less: (T, T) -> bool, s: seq<T>, t: seq<T>, lo: int, hi: int, l: int, u: int, i: int, j: int, k: int, left: bool)
    requires StrictWeak(less) && 0 <= lo <= l <= i < u <= hi <= |s| && SortedAround(less, s, lo, hi, l, u) && Split(less, s, l, u, i)
    requires if left then j == l && k == i else j == i + 1 && k == u
    requires Perm(s, t, j, k) && Sorted(less, t, j, k)
    ensures Perm(s, t, lo, hi)
    ensures if left then SortedAround(less, t, lo, hi, i + 1, u) else SortedAround(less, t, lo, hi, l, i)
  {
    PermSize(s, t, j, k);
    hide Perm, Sorted, Split, SortedAround, StrictWeak;
    PermWiden(s, t, j, k, l, u);
    PermWiden(s, t, j, k, lo, hi);
    AroundPerm(less, s, t, lo, hi, l, u);
    SplitPerm(less, s, t, l, u, i, j, k);
    SplitSorted(less, t, lo, hi, l, u, i, left);
  }

  lemma Deeper(d: nat, m: nat, n: nat)
    requires d == 0 || Pow2(d) <= m
    requires 2 * m <= n && 2 <= n
    ensures Pow2(d + 1) <= n
  {
    assert Pow2(0) == 1 && Pow2(d + 1) == 2 * Pow2(d);
  }

  lemma AroundAll<T>(less: (T, T) -> bool, s: seq<T>, lo: int, hi: int)
    requires 0 <= lo <= hi <= |s|
    ensures SortedAround(less, s, lo, hi, lo, hi)
  {}

  lemma AroundNone<T>(less: (T, T) -> bool, s: seq<T>, lo: int, hi: int, l: int, u: int)
    requires 0 <= lo <= hi <= |s| && SortedAround(less, s, lo, hi, l, u) && u <= l + 1
    ensures Sorted(less, s, lo, hi)
  {}

  lemma AroundDone<T>(less: (T, T) -> bool, s: seq<T>, lo: int, hi: int, l: int, u: int)
    requires 0 <= lo <= l <= u <= hi <= |s| && SortedAround(less, s, lo, hi, l, u) && Sorted(less, s, l, u)
    ensures Sorted(less, s, lo, hi)
  {}

  /** `sort`. */
  method Sort<T(!new)>(less: (T, T) -> bool, a: array<T>) returns (ghost depth: nat)
    requires StrictWeak(less)
    modifies a
    ensures multiset(a[..]) == multiset(old(a[..]))
    ensures forall p, q :: 0 <= p < q < a.Length ==> !less(a[q], a[p])
    ensures depth == 0 || Pow2(depth) <= a.Length
  {
    ghost var s := a[..];
    depth := AuxSort(less, a, 0, a.Length - 1);
    assert s[0..a.Length] == s && a[..][0..a.Length] == a[..];
    forall p, q | 0 <= p < q < a.Length ensures !less(a[q], a[p]) { assert Le(less, a[..][p], a[..][q]); }
  }
}
