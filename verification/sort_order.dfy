/** Order functions and permutations of a part of an array. */
module SortOrder {

  /** A strict weak order: what the manual asks of the function given to `sort`. */
  ghost predicate StrictWeak<T(!new)>(less: (T, T) -> bool) {
    && (forall x, y :: less(x, y) ==> !less(y, x))
    && forall x, y, z :: less(x, z) ==> less(x, y) || less(y, z)
  }

  /** `x` may come before `y`. */
  predicate Le<T>(less: (T, T) -> bool, x: T, y: T) {
    !less(y, x)
  }

  lemma LeTrans<T(!new)>(less: (T, T) -> bool, x: T, y: T, z: T)
    requires StrictWeak(less) && Le(less, x, y) && Le(less, y, z)
    ensures Le(less, x, z)
  {}

  /** `t` is `s` with the elements from `lo` up to `hi` in another order. */
  ghost predicate Perm<T>(s: seq<T>, t: seq<T>, lo: int, hi: int) {
    && 0 <= lo <= hi <= |s| == |t|
    && s[..lo] == t[..lo] && s[hi..] == t[hi..] && multiset(s[lo..hi]) == multiset(t[lo..hi])
  }

  lemma PermSelf<T>(s: seq<T>, lo: int, hi: int)
    requires 0 <= lo <= hi <= |s|
    ensures Perm(s, s, lo, hi)
  {}

  lemma PermTrans<T>(s: seq<T>, t: seq<T>, u: seq<T>, lo: int, hi: int)
    requires Perm(s, t, lo, hi) && Perm(t, u, lo, hi)
    ensures Perm(s, u, lo, hi)
  {}

  lemma PermWiden<T>(s: seq<T>, t: seq<T>, lo: int, hi: int, lo2: int, hi2: int)
    requires Perm(s, t, lo, hi) && 0 <= lo2 <= lo && hi <= hi2 <= |s|
    ensures Perm(s, t, lo2, hi2)
  {
    assert s[..lo2] == s[..lo][..lo2] && t[..lo2] == t[..lo][..lo2];
    assert s[hi2..] == s[hi..][hi2 - hi..] && t[hi2..] == t[hi..][hi2 - hi..];
    assert s[lo2..lo] == s[..lo][lo2..] && t[lo2..lo] == t[..lo][lo2..];
    assert s[hi..hi2] == s[hi..][..hi2 - hi] && t[hi..hi2] == t[hi..][..hi2 - hi];
    assert s[lo2..hi2] == s[lo2..lo] + s[lo..hi] + s[hi..hi2];
    assert t[lo2..hi2] == t[lo2..lo] + t[lo..hi] + t[hi..hi2];
  }

  lemma PermSwap<T>(s: seq<T>, i: int, j: int, lo: int, hi: int)
    requires 0 <= lo <= i < hi <= |s| && lo <= j < hi
    ensures Perm(s, s[i := s[j]][j := s[i]], lo, hi)
  {
    var t := s[i := s[j]][j := s[i]];
    var w := s[lo..hi];
    assert t[lo..hi] == w[i - lo := w[j - lo]][j - lo := w[i - lo]];
  }

  lemma PermOutside<T>(s: seq<T>, t: seq<T>, lo: int, hi: int, p: int)
    requires Perm(s, t, lo, hi) && 0 <= p < |s| && !(lo <= p < hi)
    ensures s[p] == t[p]
  {
    if p < lo { assert s[..lo][p] == t[..lo][p]; } else { assert s[hi..][p - hi] == t[hi..][p - hi]; }
  }

  /** Every element was somewhere in the same part. */
  lemma PermFrom<T>(s: seq<T>, t: seq<T>, lo: int, hi: int, q: int) returns (p: int)
    requires Perm(s, t, lo, hi) && lo <= q < hi
    ensures lo <= p < hi && s[p] == t[q]
  {
    assert t[lo..hi][q - lo] in multiset(t[lo..hi]);
    assert t[q] in s[lo..hi];
    var k :| 0 <= k < hi - lo && s[lo..hi][k] == t[q];
    p := lo + k;
  }

  // ---- Sortedness ---------------------------------------------------------

  ghost predicate Sorted<T>(less: (T, T) -> bool, s: seq<T>, lo: int, hi: int)
    requires 0 <= lo <= hi <= |s|
  {
    forall p, q :: lo <= p < q < hi ==> Le(less, s[p], s[q])
  }

  /** All pairs from `lo` up to `hi` are in order, except perhaps those that lie
      both in the window from `l` up to `u`. */
  ghost predicate SortedAround<T>(less: (T, T) -> bool, s: seq<T>, lo: int, hi: int, l: int, u: int)
    requires 0 <= lo <= hi <= |s|
  {
    forall p, q :: lo <= p < q < hi && !(l <= p && q < u) ==> Le(less, s[p], s[q])
  }

  /** Whatever happens in the window. */
  lemma AroundPerm<T>(less: (T, T) -> bool, s: seq<T>, t: seq<T>, lo: int, hi: int, l: int, u: int)
    requires Perm(s, t, l, u) && 0 <= lo <= l && u <= hi <= |s| && SortedAround(less, s, lo, hi, l, u)
    ensures SortedAround(less, t, lo, hi, l, u)
  {
    hide Perm;
    assert |s| == |t| by { PermSize(s, t, l, u); }
    forall p, q | lo <= p < q < hi && !(l <= p && q < u) ensures Le(less, t[p], t[q]) {
      var p0, q0 := p, q;
      if l <= p < u { p0 := PermFrom(s, t, l, u, p); } else { PermOutside(s, t, l, u, p); }
      if l <= q < u { q0 := PermFrom(s, t, l, u, q); } else { PermOutside(s, t, l, u, q); }
      assert Le(less, s[p0], s[q0]);
    }
  }

  lemma PermSize<T>(s: seq<T>, t: seq<T>, lo: int, hi: int)
    requires Perm(s, t, lo, hi)
    ensures |s| == |t|
  {}

  /** `i` is where its element belongs in the window. */
  ghost predicate Split<T>(less: (T, T) -> bool, s: seq<T>, l: int, u: int, i: int)
    requires 0 <= l <= i < u <= |s|
  {
    && (forall p :: l <= p < i ==> Le(less, s[p], s[i]))
    && forall q :: i < q < u ==> Le(less, s[i], s[q])
  }

  /** After a split only the two sides are left to be sorted ... */
  lemma SplitAround<T(!new)>(less: (T, T) -> bool, s: seq<T>, l: int, u: int, i: int)
    requires StrictWeak(less) && 0 <= l <= i < u <= |s| && Split(less, s, l, u, i)
    ensures forall p, q :: l <= p < q < u && !(l <= p && q < i) && !(i < p && q < u) ==> Le(less, s[p], s[q])
  {
    forall p, q | l <= p < q < u && !(l <= p && q < i) && !(i < p && q < u) ensures Le(less, s[p], s[q]) {
      if p < i && i < q { LeTrans(less, s[p], s[i], s[q]); }
    }
  }

  /** ... and when one of them has been, the other. */
  lemma SplitSorted<T(!new)>(less: (T, T) -> bool, s: seq<T>, lo: int, hi: int, l: int, u: int, i: int, left: bool)
    requires StrictWeak(less) && 0 <= lo <= l <= i < u <= hi <= |s| && SortedAround(less, s, lo, hi, l, u) && Split(less, s, l, u, i)
    requires if left then Sorted(less, s, l, i) else Sorted(less, s, i + 1, u)
    ensures if left then SortedAround(less, s, lo, hi, i + 1, u) else SortedAround(less, s, lo, hi, l, i)
  {
    SplitAround(less, s, l, u, i);
  }

  lemma SplitPerm<T>(less: (T, T) -> bool, s: seq<T>, t: seq<T>, l: int, u: int, i: int, lo: int, hi: int)
    requires 0 <= l <= i < u <= |s| && Split(less, s, l, u, i) && Perm(s, t, lo, hi) && l <= lo && hi <= u && (hi <= i || i < lo)
    ensures Split(less, t, l, u, i)
  {
    hide Perm;
    assert |s| == |t| by { PermSize(s, t, lo, hi); }
    PermOutside(s, t, lo, hi, i);
    forall p | l <= p < u && p != i ensures if p < i then Le(less, t[p], t[i]) else Le(less, t[i], t[p]) {
      var p0 := p;
      if lo <= p < hi { p0 := PermFrom(s, t, lo, hi, p); } else { PermOutside(s, t, lo, hi, p); }
      assert if p0 < i then Le(less, s[p0], s[i]) else Le(less, s[i], s[p0]);
    }
  }
}
