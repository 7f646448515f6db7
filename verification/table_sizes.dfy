/** How large the array part should be (`luaO_log2`, `computesizes`). */
module TableSizes {
  import opened TableCore

  const MAXBITS := 26

  // ---- Powers of two ------------------------------------------------------

  function Pow2(n: nat): (r: nat)
    ensures r >= 1
  {
    if n == 0 then 1 else 2 * Pow2(n - 1)
  }

  lemma {:induction false} Pow2Grows(a: nat, b: nat)
    requires a < b
    ensures Pow2(a) < Pow2(b)
    decreases b
  {
    if a < b - 1 { Pow2Grows(a, b - 1); }
  }

  /** The number of binary digits. */
  function Digits(x: nat): nat {
    if x == 0 then 0 else 1 + Digits(x / 2)
  }

  lemma {:induction false} DigitsBound(x: nat)
    requires x > 0
    ensures Pow2(Digits(x) - 1) <= x < Pow2(Digits(x))
    decreases x
  {
    if x > 1 { DigitsBound(x / 2); }
  }

  lemma {:induction false} DigitsShift(x: nat, n: nat)
    requires x >= Pow2(n)
    ensures Digits(x) == n + Digits(x / Pow2(n))
    decreases n
  {
    if n > 0 {
      DigitsShift(x / 2, n - 1);
      DivDiv(x, Pow2(n - 1));
    }
  }

  lemma DivDiv(x: nat, p: nat)
    requires p > 0
    ensures (x / 2) / p == x / (2 * p)
    ensures x >= 2 * p ==> x / 2 >= p
  {
    var q := x / (2 * p);
    var r := x % (2 * p);
    assert x == q * (2 * p) + r;
    assert x / 2 == q * p + r / 2;
    assert r / 2 < p;
    DivUnique(x / 2, p, q, r / 2);
  }

  lemma DivUnique(x: nat, p: nat, q: nat, r: nat)
    requires p > 0 && x == q * p + r && r < p
    ensures x / p == q
  {
    LessTimes(x / p, q, p);
    LessTimes(q, x / p, p);
  }

  lemma LessTimes(a: nat, b: nat, p: nat)
    ensures a < b ==> a * p + p <= b * p
  {
    if a < b {
      assert b * p == (b - 1) * p + p;
      if a + 1 < b { LessTimes(a, b - 1, p); }
    }
  }

  lemma DigitsIs(x: nat, d: nat)
    requires if d == 0 then x == 0 else Pow2(d - 1) <= x < Pow2(d)
    ensures Digits(x) == d
  {
    if d > 0 {
      DigitsBound(x);
      var e := Digits(x);
      if e < d { if e < d - 1 { Pow2Grows(e, d - 1); } } else if d < e { if d < e - 1 { Pow2Grows(d, e - 1); } }
    }
  }

  // ---- The table `log_2` --------------------------------------------------

  const BELOW32 := [0, 1, 2, 2, 3, 3, 3, 3, 4, 4, 4, 4, 4, 4, 4, 4, 5, 5, 5, 5, 5, 5, 5, 5, 5, 5, 5, 5, 5, 5, 5, 5]
  const SIXES := [6, 6, 6, 6, 6, 6, 6, 6, 6, 6, 6, 6, 6, 6, 6, 6, 6, 6, 6, 6, 6, 6, 6, 6, 6, 6, 6, 6, 6, 6, 6, 6]
  const SEVENS := [7, 7, 7, 7, 7, 7, 7, 7, 7, 7, 7, 7, 7, 7, 7, 7, 7, 7, 7, 7, 7, 7, 7, 7, 7, 7, 7, 7, 7, 7, 7, 7]
  const EIGHTS := [8, 8, 8, 8, 8, 8, 8, 8, 8, 8, 8, 8, 8, 8, 8, 8, 8, 8, 8, 8, 8, 8, 8, 8, 8, 8, 8, 8, 8, 8, 8, 8]

  /** In rows of 32. */
  const LOG_2: seq<seq<nat>> := [BELOW32, SIXES, SEVENS, SEVENS, EIGHTS, EIGHTS, EIGHTS, EIGHTS]

  function TableLog(x: nat): nat
    requires x < 256
  {
    RowsFull();
    LOG_2[x / 32][x % 32]
  }

  lemma RowsFull()
    ensures |LOG_2| == 8 && forall i :: 0 <= i < 8 ==> |LOG_2[i]| == 32
  {}

  /** The entries are the numbers of binary digits of their places. */
  lemma TableIsDigits(x: nat)
    requires x < 256
    ensures TableLog(x) == Digits(x)
  {
    SmallPowers();
    RowsFull();
    RowOf(x);
    hide Pow2, Digits, TableLog, LOG_2, BELOW32, SIXES, SEVENS, EIGHTS;
    if x < 32 {
      FirstRow(x);
    } else {
      LaterRows(x % 32);
      DigitsIs(x, if x < 64 then 6 else if x < 128 then 7 else 8);
    }
  }

  lemma RowOf(x: nat)
    requires x < 256
    ensures |BELOW32| == |SIXES| == |SEVENS| == |EIGHTS| == 32
    ensures TableLog(x) == if x < 32 then BELOW32[x] else if x < 64 then SIXES[x % 32] else if x < 128 then SEVENS[x % 32] else EIGHTS[x % 32]
  {
    hide BELOW32, SIXES, SEVENS, EIGHTS;
    RowSizes();
    RowsFull();
    var i := x / 32;
    assert if x < 32 then i == 0 else if x < 64 then i == 1 else if x < 128 then 2 <= i <= 3 else 4 <= i <= 7;
  }

  lemma RowSizes()
    ensures |BELOW32| == |SIXES| == |SEVENS| == |EIGHTS| == 32
  {}

  lemma LaterRows(r: nat)
    requires r < 32
    ensures |SIXES| == |SEVENS| == |EIGHTS| == 32 && SIXES[r] == 6 && SEVENS[r] == 7 && EIGHTS[r] == 8
  {}

  lemma SmallPowers()
    ensures Pow2(0) == 1 && Pow2(1) == 2 && Pow2(2) == 4 && Pow2(3) == 8 && Pow2(4) == 16 && Pow2(5) == 32
    ensures Pow2(6) == 64 && Pow2(7) == 128 && Pow2(8) == 256
  {}

  lemma FirstRow(x: nat)
    requires x < 32
    ensures BELOW32[x] == Digits(x)
  {
    SmallPowers();
    hide Pow2, Digits;
    var d := if x == 0 then 0 else if x < 2 then 1 else if x < 4 then 2 else if x < 8 then 3 else if x < 16 then 4 else 5;
    assert BELOW32[x] == d;
    DigitsIs(x, d);
  }

  /** `luaO_log2`: the loop shifts whole bytes, and the table has the rest. */
  method Log2(x: nat) returns (l: int)
    ensures x == 0 ==> l == -1
    ensures x > 0 ==> l >= 0 && Pow2(l) <= x < Pow2(l + 1)
  {
    l := -1;
    var y := x;
    hide *;
    while y >= 256
      invariant Digits(x) == l + 1 + Digits(y) && l >= -1
      decreases y
    {
      ByteShift(y);
      l := l + 8;
      y := y / 256;
    }
    TableIsDigits(y);
    l := l + TableLog(y);
    DigitsEdges(x);
  }

  lemma ByteShift(x: nat)
    requires x >= 256
    ensures Digits(x) == 8 + Digits(x / 256)
  {
    SmallPowers();
    DigitsShift(x, 8);
  }

  lemma DigitsEdges(x: nat)
    ensures if x == 0 then Digits(x) == 0 else Digits(x) > 0 && Pow2(Digits(x) - 1) <= x < Pow2(Digits(x))
  {
    if x > 0 { DigitsBound(x); }
  }

  /** `ceillog2`: the slice that index `x` falls in. */
  method CeilLog2(x: nat) returns (l: nat)
    requires x > 0
    ensures InSlice(x, l)
  {
    var n := Log2(x - 1);
    l := n + 1;
  }

  /** Slice `l` of the indices: above 2^(l-1), up to 2^l; slice 0 is {1}. */
  predicate InSlice(n: int, l: nat) {
    if l == 0 then n == 1 else Pow2(l - 1) < n <= Pow2(l)
  }

  lemma SliceUnique(n: int, a: nat, b: nat)
    requires InSlice(n, a) && InSlice(n, b)
    ensures a == b
  {
    if a < b { SliceBelow(n, a, b); }
    if b < a { SliceBelow(n, b, a); }
  }

  lemma SliceBelow(n: int, a: nat, b: nat)
    requires InSlice(n, a) && a < b
    ensures !InSlice(n, b)
  {
    if a < b - 1 { Pow2Grows(a, b - 1); }
  }

  // ---- Counting -----------------------------------------------------------

  ghost function Slice(keys: set<Key>, l: nat): set<Key> {
    set k | k in keys && k.Int? && InSlice(k.n, l)
  }

  ghost function UpTo(keys: set<Key>, l: nat): set<Key> {
    set k | k in keys && k.Int? && 1 <= k.n <= Pow2(l)
  }

  lemma UpToStep(keys: set<Key>, l: nat)
    ensures l == 0 ==> UpTo(keys, 0) == Slice(keys, 0)
    ensures l > 0 ==> |UpTo(keys, l)| == |UpTo(keys, l - 1)| + |Slice(keys, l)|
  {
    if l > 0 {
      assert Pow2(l) == 2 * Pow2(l - 1);
      assert UpTo(keys, l) == UpTo(keys, l - 1) + Slice(keys, l);
      assert UpTo(keys, l - 1) !! Slice(keys, l);
    }
  }

  lemma {:induction false} UpToMore(keys: set<Key>, a: nat, b: nat)
    requires a <= b
    ensures UpTo(keys, a) <= UpTo(keys, b)
    decreases b
  {
    if a < b { Pow2Grows(a, b); }
  }

  /** Keys that may go to the array part. */
  ghost function Candidates(keys: set<Key>): set<Key> {
    UpTo(keys, MAXBITS)
  }

  /** `n` slots would be more than half full. */
  ghost predicate Worth(keys: set<Key>, l: nat) {
    2 * |UpTo(keys, l)| > Pow2(l)
  }

  /** The largest power of two that is worth it, or none. */
  ghost predicate BestSize(keys: set<Key>, n: nat) {
    && (n == 0 || exists l: nat :: l <= 26 && n == Pow2(l) && Worth(keys, l))
    && forall l: nat :: l <= 26 && Worth(keys, l) ==> Pow2(l) <= n
  }

  /** The number of nodes: the least power of two that will do, and not zero. */
  ghost predicate NodeSize(n: nat, size: nat) {
    n >= size && (n == 1 || n < 2 * size) && exists l: nat :: n == Pow2(l)
  }

  lemma Enough(n: nat, size: nat)
    requires NodeSize(n, size)
    ensures n >= size
  {}

  lemma SliceSize(size: nat, l: nat)
    requires size > 0 && InSlice(size, l)
    ensures NodeSize(Pow2(l), size)
  {}

  /** The best among the first `i` sizes. */
  ghost predicate BestBelow(keys: set<Key>, i: nat, n: nat, na: nat) {
    && (if n == 0 then na == 0 else exists l: nat :: l < i && n == Pow2(l) && Worth(keys, l) && na == |UpTo(keys, l)|)
    && forall l: nat :: l < i && Worth(keys, l) ==> Pow2(l) <= n
  }

  lemma {:induction false} IntsBound(keys: set<Key>, n: nat)
    ensures |set k | k in keys && InArray(n, k)| <= n
    decreases n
  {
    var s := set k | k in keys && InArray(n, k);
    if n == 0 {
      assert s == {};
    } else {
      var r := set k | k in keys && InArray(n - 1, k);
      IntsBound(keys, n - 1);
      assert s == if Int(n) in keys then r + {Int(n)} else r;
    }
  }

  lemma UpToBound(keys: set<Key>, l: nat)
    ensures |UpTo(keys, l)| <= Pow2(l)
    ensures UpTo(keys, l) == set k | k in keys && InArray(Pow2(l), k)
  {
    IntsBound(keys, Pow2(l));
    assert UpTo(keys, l) == set k | k in keys && InArray(Pow2(l), k);
  }

  /** A size with nothing in its last slice is not worth it. */
  lemma EmptySlice(keys: set<Key>, l: nat)
    requires |Slice(keys, l)| == 0
    ensures !Worth(keys, l)
  {
    UpToStep(keys, l);
    if l > 0 { UpToBound(keys, l - 1); }
  }

  /** Nothing larger than `l` is worth it when all candidates are below. */
  lemma NothingLarger(keys: set<Key>, l: nat, m: nat)
    requires l < m <= MAXBITS && (|UpTo(keys, l)| == |Candidates(keys)|)
    ensures !Worth(keys, m)
  {
    UpToMore(keys, m, MAXBITS);
    Subsets(UpTo(keys, m), Candidates(keys));
    UpToBound(keys, l);
    if l < m - 1 { Pow2Grows(l, m - 1); }
  }

  lemma {:induction false} Subsets(a: set<Key>, b: set<Key>)
    requires a <= b
    ensures |a| <= |b|
  {
    assert b == a + (b - a);
  }

  /** Nor is it when the size is too large for all candidates together. */
  lemma TooLarge(keys: set<Key>, l: nat, m: nat)
    requires l <= m <= MAXBITS && Pow2(l) / 2 >= |Candidates(keys)|
    ensures !Worth(keys, m)
  {
    UpToMore(keys, m, MAXBITS);
    Subsets(UpTo(keys, m), Candidates(keys));
    if l < m { Pow2Grows(l, m); }
  }

  /** One more size considered. */
  lemma BestStep(keys: set<Key>, i: nat, n: nat, na: nat, n1: nat, na1: nat)
    requires BestBelow(keys, i, n, na)
    requires if Worth(keys, i) then n1 == Pow2(i) && na1 == |UpTo(keys, i)| else n1 == n && na1 == na
    ensures BestBelow(keys, i + 1, n1, na1)
  {
    if Worth(keys, i) {
      forall l: nat | l < i + 1 && Worth(keys, l) ensures Pow2(l) <= n1 { if l < i { Pow2Grows(l, i); } }
    }
  }

  lemma BestDone(keys: set<Key>, i: nat, n: nat, na: nat)
    requires BestBelow(keys, i, n, na) && i <= MAXBITS + 1
    requires forall l: nat :: i <= l <= MAXBITS ==> !Worth(keys, l)
    ensures BestSize(keys, n) && na == |set k | k in keys && InArray(n, k)| && n / 2 <= na <= n
  {
    if n == 0 {
      IntsBound(keys, 0);
    } else {
      var l: nat :| l < i && n == Pow2(l) && Worth(keys, l) && na == |UpTo(keys, l)|;
      UpToBound(keys, l);
    }
  }

  /** `computesizes`: the array part gets the largest size that will be more than
      half full; the index `i` stays within the counters. */
  method ComputeSizes(nums: seq<nat>, narray: nat, ghost keys: set<Key>) returns (n: nat, na: nat)
    requires |nums| == MAXBITS + 1 && narray == |Candidates(keys)|
    requires forall l :: 0 <= l <= MAXBITS ==> nums[l] == |Slice(keys, l)|
    ensures BestSize(keys, n)
    ensures na == |set k | k in keys && InArray(n, k)| && n / 2 <= na <= n
  {
    hide Worth, UpTo, Slice;
    var i := 0;
    var twotoi := 1;
    var a := 0;
    na, n := 0, 0;
    while twotoi / 2 < narray
      invariant i <= MAXBITS + 1 && twotoi == Pow2(i) && BestBelow(keys, i, n, na)
      invariant a == (if i == 0 then 0 else |UpTo(keys, i - 1)|)
      invariant i > 0 ==> a != narray
      decreases MAXBITS + 1 - i
    {
      UpToStep(keys, i);
      ghost var n0, na0 := n, na;
      if nums[i] > 0 {
        a := a + nums[i];
        if a > twotoi / 2 {
          n := twotoi;
          na := a;
        }
      } else {
        EmptySlice(keys, i);
      }
      WorthIs(keys, i, a);
      BestStep(keys, i, n0, na0, n, na);
      if a == narray {
        forall l: nat | i < l <= MAXBITS ensures !Worth(keys, l) { NothingLarger(keys, i, l); }
        BestDone(keys, i + 1, n, na);
        return;
      }
      i := i + 1;
      twotoi := twotoi * 2;
    }
    forall l: nat | i <= l <= MAXBITS ensures !Worth(keys, l) { TooLarge(keys, i, l); }
    BestDone(keys, i, n, na);
  }

  lemma WorthIs(keys: set<Key>, l: nat, a: nat)
    requires a == |UpTo(keys, l)|
    ensures Worth(keys, l) <==> a > Pow2(l) / 2
  {
    if l > 0 { assert Pow2(l) == 2 * Pow2(l - 1); }
  }
}
