/** Counting keys before a rehash, and room for them after it. */
module TableCount {
  import opened TableCore
  import opened TableSizes

  function KeyAt(node: seq<Node>, i: int): Key
    requires 0 <= i < |node|
  {
    if node[i].key.Some? then node[i].key.value else NilKey
  }

  /** The keys of the first `n` slots of the array part that are in use. */
  ghost function ArrKeys(arr: seq<Value>, n: nat): set<Key>
    requires n <= |arr|
  {
    set j | 1 <= j <= n && arr[j - 1] != Nil :: Int(j)
  }

  /** The keys of the nodes in use from node `n` on. */
  ghost function NodeKeys(node: seq<Node>, n: nat): set<Key>
    requires n <= |node|
  {
    set i | n <= i < |node| && node[i].val != Nil :: KeyAt(node, i)
  }

  ghost function LiveKeys(arr: seq<Value>, node: seq<Node>): set<Key> {
    ArrKeys(arr, |arr|) + NodeKeys(node, 0)
  }

  /** All keys in nodes, in use or not. */
  ghost function AllKeys(node: seq<Node>): set<Key> {
    set i | 0 <= i < |node| && node[i].key.Some? :: KeyAt(node, i)
  }

  // ---- numusearray --------------------------------------------------------

  lemma ArrStep(arr: seq<Value>, n: nat)
    requires n < |arr|
    ensures ArrKeys(arr, n + 1) == ArrKeys(arr, n) + (if arr[n] == Nil then {} else {Int(n + 1)})
    ensures Int(n + 1) !in ArrKeys(arr, n)
  {
    forall k ensures k in ArrKeys(arr, n + 1) <==> k in ArrKeys(arr, n) || (arr[n] != Nil && k == Int(n + 1)) {
      if k.Int? { assert k in ArrKeys(arr, n + 1) <==> 1 <= k.n <= n + 1 && arr[k.n - 1] != Nil; }
    }
  }

  lemma SliceAdd(keys: set<Key>, k: Key, l: nat)
    requires k !in keys
    ensures |Slice(keys + {k}, l)| == |Slice(keys, l)| + (if k.Int? && InSlice(k.n, l) then 1 else 0)
  {
    assert Slice(keys + {k}, l) == Slice(keys, l) + (if k.Int? && InSlice(k.n, l) then {k} else {});
  }

  lemma SliceEmpty(arr: seq<Value>, n: nat, l: nat)
    requires n <= |arr| && l > 0 && n <= Pow2(l - 1)
    ensures Slice(ArrKeys(arr, n), l) == {}
  {}

  /** The inner loop of `numusearray`: one slice. */
  method CountSlice(arr: seq<Value>, start: nat, lim: nat, lg: nat) returns (lc: nat, i: nat)
    requires 1 <= start <= lim + 1 && lim <= |arr| && forall j :: start <= j <= lim ==> InSlice(j, lg)
    requires |Slice(ArrKeys(arr, start - 1), lg)| == 0
    ensures i == lim + 1 && lc == |ArrKeys(arr, lim)| - |ArrKeys(arr, start - 1)| == |Slice(ArrKeys(arr, lim), lg)|
    ensures forall l: nat :: l != lg ==> |Slice(ArrKeys(arr, lim), l)| == |Slice(ArrKeys(arr, start - 1), l)|
  {
    hide Slice, ArrKeys, InSlice;
    lc, i := 0, start;
    ghost var done, before := start - 1, start - 1;
    while i <= lim
      invariant start <= i <= lim + 1 && done == i - 1 && lc == |ArrKeys(arr, done)| - |ArrKeys(arr, before)|
      invariant lc == |Slice(ArrKeys(arr, done), lg)|
      invariant forall l: nat :: l != lg ==> |Slice(ArrKeys(arr, done), l)| == |Slice(ArrKeys(arr, before), l)|
    {
      OneSlot(arr, i, lg);
      if arr[i - 1] != Nil { lc := lc + 1; }
      i := i + 1;
      done := done + 1;
    }
  }

  /** `numusearray`, slice by slice. */
  method NumUseArray(arr: seq<Value>) returns (nums: seq<nat>, ause: nat)
    requires |arr| <= Pow2(MAXBITS)
    ensures |nums| == MAXBITS + 1 && ause == |ArrKeys(arr, |arr|)|
    ensures forall l :: 0 <= l <= MAXBITS ==> nums[l] == |Slice(ArrKeys(arr, |arr|), l)|
  {
    hide Slice, ArrKeys, InSlice, CountedTo, Seen, Pow2;
    nums := seq(MAXBITS + 1, _ => 0);
    ause := 0;
    var i := 1;
    var lg, ttlg := 0, 1;
    NoneUsed(arr);
    SeenIs(|arr|, 0);
    assert CountedTo(arr, nums, 0, 0) by { CountedNone(arr, nums); }
    while lg <= MAXBITS
      invariant lg <= MAXBITS + 1 && ttlg == Pow2(lg) && |nums| == MAXBITS + 1 && i - 1 == Seen(|arr|, lg)
      invariant ause == |ArrKeys(arr, i - 1)|
      invariant CountedTo(arr, nums, i - 1, lg)
    {
      SeenIs(|arr|, lg);
      var lc;
      var lim := ttlg;
      if lim > |arr| {
        lim := |arr|;
        if i > lim {
          RestEmpty(arr, lg, nums);
          return;
        }
      }
      NotYet(arr, lg);
      ghost var done := i - 1;
      lc, i := CountSlice(arr, i, lim, lg);
      CountedMore(arr, nums, done, lim, lg, lc);
      nums := nums[lg := nums[lg] + lc];
      ause := ause + lc;
      lg, ttlg := lg + 1, ttlg * 2;
    }
    SeenIs(|arr|, MAXBITS + 1);
    CountedAll(arr, nums);
  }

  /** How many of `n` slots belong to slices below `lg`. */
  function Seen(n: nat, lg: nat): (r: nat)
    ensures r <= n
  {
    Least(n, if lg == 0 then 0 else Pow2(lg - 1))
  }

  lemma SeenIs(n: nat, lg: nat)
    ensures Seen(n, lg + 1) == Least(n, Pow2(lg)) && Pow2(lg + 1) == 2 * Pow2(lg)
    ensures lg > 0 ==> Seen(n, lg) == Least(n, Pow2(lg - 1)) <= Least(n, Pow2(lg))
    ensures lg == 0 ==> Seen(n, lg) == 0 && Pow2(0) == 1
  {}

  /** The next slice is the slots from there on. */
  lemma NotYet(arr: seq<Value>, lg: nat)
    ensures var n := Seen(|arr|, lg);
            && Slice(ArrKeys(arr, n), lg) == {} && n <= Least(|arr|, Pow2(lg))
            && forall j :: n + 1 <= j <= Least(|arr|, Pow2(lg)) ==> InSlice(j, lg)
  {
    if lg > 0 { SliceEmpty(arr, Seen(|arr|, lg), lg); } else { NoneUsed(arr); }
  }

  /** The first `lg` counters are those of the first `n` slots, the others are 0. */
  ghost predicate CountedTo(arr: seq<Value>, nums: seq<nat>, n: nat, lg: nat)
    requires n <= |arr| && |nums| == MAXBITS + 1
  {
    && (forall l :: 0 <= l < lg && l <= MAXBITS ==> nums[l] == |Slice(ArrKeys(arr, n), l)|)
    && forall l :: lg <= l <= MAXBITS ==> nums[l] == 0
  }

  lemma CountedNone(arr: seq<Value>, nums: seq<nat>)
    requires |nums| == MAXBITS + 1 && forall l :: 0 <= l <= MAXBITS ==> nums[l] == 0
    ensures CountedTo(arr, nums, 0, 0)
  {}

  lemma CountedAll(arr: seq<Value>, nums: seq<nat>)
    requires |nums| == MAXBITS + 1 && CountedTo(arr, nums, |arr|, MAXBITS + 1)
    ensures forall l :: 0 <= l <= MAXBITS ==> nums[l] == |Slice(ArrKeys(arr, |arr|), l)|
  {}

  lemma CountedMore(arr: seq<Value>, nums: seq<nat>, n: nat, m: nat, lg: nat, lc: nat)
    requires n <= |arr| && m <= |arr| && lg <= MAXBITS && |nums| == MAXBITS + 1 && CountedTo(arr, nums, n, lg)
    requires lc == |Slice(ArrKeys(arr, m), lg)|
    requires forall l: nat :: l != lg ==> |Slice(ArrKeys(arr, m), l)| == |Slice(ArrKeys(arr, n), l)|
    ensures CountedTo(arr, nums[lg := nums[lg] + lc], m, lg + 1)
  {
    hide Slice, ArrKeys;
  }

  function Least(a: nat, b: nat): nat {
    if a < b then a else b
  }

  lemma NoneUsed(arr: seq<Value>)
    ensures ArrKeys(arr, 0) == {} && forall l :: Slice({}, l) == {}
  {}

  /** Slot `i` belongs to slice `lg` and to no other. */
  lemma OneSlot(arr: seq<Value>, i: nat, lg: nat)
    requires 1 <= i <= |arr| && InSlice(i, lg)
    ensures |ArrKeys(arr, i)| == |ArrKeys(arr, i - 1)| + (if arr[i - 1] == Nil then 0 else 1)
    ensures |Slice(ArrKeys(arr, i), lg)| == |Slice(ArrKeys(arr, i - 1), lg)| + (if arr[i - 1] == Nil then 0 else 1)
    ensures forall l: nat :: l != lg ==> |Slice(ArrKeys(arr, i), l)| == |Slice(ArrKeys(arr, i - 1), l)|
  {
    hide Slice, ArrKeys;
    ArrStep(arr, i - 1);
    if arr[i - 1] != Nil {
      forall l: nat ensures |Slice(ArrKeys(arr, i), l)| == |Slice(ArrKeys(arr, i - 1), l)| + (if l == lg then 1 else 0) {
        SliceAdd(ArrKeys(arr, i - 1), Int(i), l);
        if InSlice(i, l) { SliceUnique(i, l, lg); }
      }
    }
  }

  lemma RestEmpty(arr: seq<Value>, lg: nat, nums: seq<nat>)
    requires lg <= MAXBITS && |nums| == MAXBITS + 1 && (|arr| == 0 || (lg > 0 && |arr| <= Pow2(lg - 1)))
    requires CountedTo(arr, nums, |arr|, lg)
    ensures forall l :: 0 <= l <= MAXBITS ==> nums[l] == |Slice(ArrKeys(arr, |arr|), l)|
  {
    forall l | lg <= l <= MAXBITS ensures nums[l] == |Slice(ArrKeys(arr, |arr|), l)| {
      if |arr| == 0 {
        NoneUsed(arr);
      } else {
        if lg < l { Pow2Grows(lg - 1, l - 1); }
        SliceEmpty(arr, |arr|, l);
      }
    }
  }

  // ---- numusehash ---------------------------------------------------------

  /** `countint`. */
  method CountInt(k: Key, nums: seq<nat>) returns (one: nat, r: seq<nat>)
    requires |nums| == MAXBITS + 1
    ensures |r| == |nums| && one == (if InArray(Pow2(MAXBITS), k) then 1 else 0)
    ensures forall l :: 0 <= l <= MAXBITS ==> r[l] == nums[l] + (if k.Int? && InSlice(k.n, l) then 1 else 0)
  {
    r := nums;
    if InArray(Pow2(MAXBITS), k) {
      var l := CeilLog2(k.n);
      if l > MAXBITS { if MAXBITS < l - 1 { Pow2Grows(MAXBITS, l - 1); } }
      r := r[l := r[l] + 1];
      one := 1;
      forall m: nat ensures InSlice(k.n, m) <==> m == l { if InSlice(k.n, m) { SliceUnique(k.n, m, l); } }
    } else {
      one := 0;
      forall l | 0 <= l <= MAXBITS ensures !(k.Int? && InSlice(k.n, l)) { NoSlice(k, l); }
    }
  }

  lemma NoSlice(k: Key, l: nat)
    requires l <= MAXBITS && !InArray(Pow2(MAXBITS), k)
    ensures !(k.Int? && InSlice(k.n, l))
  {
    if l < MAXBITS { Pow2Grows(l, MAXBITS); }
  }

  lemma NodeStep(node: seq<Node>, n: nat)
    requires n < |node|
    requires forall i, j {:trigger node[i].key, node[j].key} :: 0 <= i < j < |node| && Keyed(node, i) ==> node[i].key != node[j].key
    requires forall i {:trigger node[i].val} :: 0 <= i < |node| && node[i].val != Nil ==> node[i].key.Some?
    ensures NodeKeys(node, n) == NodeKeys(node, n + 1) + (if node[n].val == Nil then {} else {KeyAt(node, n)})
    ensures node[n].val != Nil ==> KeyAt(node, n) !in NodeKeys(node, n + 1)
  {
    if node[n].val != Nil {
      forall j | n < j < |node| && node[j].val != Nil ensures KeyAt(node, j) != KeyAt(node, n) {
        assert node[n].key != node[j].key;
      }
    }
  }

  lemma CandidatesAdd(keys: set<Key>, k: Key)
    requires k !in keys
    ensures |Candidates(keys + {k})| == |Candidates(keys)| + (if InArray(Pow2(MAXBITS), k) then 1 else 0)
  {
    assert Candidates(keys + {k}) == Candidates(keys) + (if InArray(Pow2(MAXBITS), k) then {k} else {});
  }

  /** `numusehash`, from the last node to the first. */
  method NumUseHash(node: seq<Node>, nums0: seq<nat>) returns (totaluse: nat, ause: nat, nums: seq<nat>)
    requires |nums0| == MAXBITS + 1
    requires forall i, j {:trigger node[i].key, node[j].key} :: 0 <= i < j < |node| && Keyed(node, i) ==> node[i].key != node[j].key
    requires forall i {:trigger node[i].val} :: 0 <= i < |node| && node[i].val != Nil ==> node[i].key.Some?
    ensures |nums| == |nums0| && totaluse == |NodeKeys(node, 0)| && ause == |Candidates(NodeKeys(node, 0))|
    ensures forall l :: 0 <= l <= MAXBITS ==> nums[l] == nums0[l] + |Slice(NodeKeys(node, 0), l)|
  {
    hide Slice, NodeKeys, UpTo;
    nums := nums0;
    totaluse, ause := 0, 0;
    var i := |node|;
    NoNodes(node);
    while i > 0
      invariant 0 <= i <= |node| && |nums| == |nums0| && totaluse == |NodeKeys(node, i)| && ause == |Candidates(NodeKeys(node, i))|
      invariant forall l :: 0 <= l <= MAXBITS ==> nums[l] == nums0[l] + |Slice(NodeKeys(node, i), l)|
    {
      i := i - 1;
      NodeStep(node, i);
      if node[i].val != Nil {
        var one;
        ghost var keys := NodeKeys(node, i + 1);
        CandidatesAdd(keys, KeyAt(node, i));
        forall l | 0 <= l <= MAXBITS ensures |Slice(keys + {KeyAt(node, i)}, l)| ==
          |Slice(keys, l)| + (if KeyAt(node, i).Int? && InSlice(KeyAt(node, i).n, l) then 1 else 0)
        {
          SliceAdd(keys, KeyAt(node, i), l);
        }
        one, nums := CountInt(node[i].key.value, nums);
        ause := ause + one;
        totaluse := totaluse + 1;
      }
    }
  }

  lemma NoNodes(node: seq<Node>)
    ensures NodeKeys(node, |node|) == {} && Candidates({}) == {} && forall l :: Slice({}, l) == {}
  {}

  // ---- Room ---------------------------------------------------------------

  ghost function FirstKeys(node: seq<Node>, n: nat): set<Key>
    requires n <= |node|
  {
    set i | 0 <= i < n :: KeyAt(node, i)
  }

  lemma FirstStep(node: seq<Node>, n: nat)
    requires n < |node| && forall i :: 0 <= i <= n ==> Keyed(node, i)
    requires forall i, j {:trigger node[i].key, node[j].key} :: 0 <= i < j < |node| && Keyed(node, i) ==> node[i].key != node[j].key
    ensures FirstKeys(node, n + 1) == FirstKeys(node, n) + {KeyAt(node, n)}
    ensures KeyAt(node, n) !in FirstKeys(node, n)
  {
    forall j | 0 <= j < n ensures KeyAt(node, j) != KeyAt(node, n) {
      assert Keyed(node, j) && Keyed(node, n);
      assert node[j].key != node[n].key;
    }
  }

  /** As many keys as nodes, if no node is unused. */
  lemma {:induction false} AllUsed(node: seq<Node>, n: nat)
    requires n <= |node| && forall i :: 0 <= i < n ==> Keyed(node, i)
    requires forall i, j {:trigger node[i].key, node[j].key} :: 0 <= i < j < |node| && Keyed(node, i) ==> node[i].key != node[j].key
    ensures |FirstKeys(node, n)| == n
    decreases n
  {
    if n == 0 {
      assert FirstKeys(node, 0) == {};
    } else {
      AllUsed(node, n - 1);
      FirstStep(node, n - 1);
      hide FirstKeys;
    }
  }

  /** With fewer keys than nodes there is an unused node. */
  lemma SomeUnused(node: seq<Node>, keys: set<Key>)
    requires AllKeys(node) <= keys && |keys| < |node|
    requires forall i, j {:trigger node[i].key, node[j].key} :: 0 <= i < j < |node| && Keyed(node, i) ==> node[i].key != node[j].key
    ensures exists i :: 0 <= i < |node| && node[i].key.None?
  {
    if forall i :: 0 <= i < |node| ==> Keyed(node, i) {
      AllUsed(node, |node|);
      var s := FirstKeys(node, |node|);
      forall k | k in s ensures k in AllKeys(node) {
        var i :| 0 <= i < |node| && KeyAt(node, i) == k;
        assert Keyed(node, i);
      }
      Subsets(s, keys);
    }
  }
}
