/** Traversals (`luaH_next`): which pair comes next, and what a whole traversal
    visits. */
module TableNext {
  import opened TableCore
  import opened TableCount
  import opened TableSteps

  /** A table at some moment: array part and nodes. */
  datatype Shot = Shot(arr: seq<Value>, node: seq<Node>)

  function Size(t: Shot): nat {
    |t.arr| + |t.node|
  }

  /** All slots in the order of a traversal. */
  function SlotValue(t: Shot, p: nat): Value
    requires p < Size(t)
  {
    if p < |t.arr| then t.arr[p] else t.node[p - |t.arr|].val
  }

  function SlotKey(t: Shot, p: nat): Key
    requires p < Size(t)
  {
    if p < |t.arr| then Int(p + 1) else KeyAt(t.node, p - |t.arr|)
  }

  predicate Known(t: Shot, k: Key) {
    k.NilKey? || InArray(|t.arr|, k) || HasNode(t.node, k)
  }

  /** `findindex`: where the search for the next pair starts. */
  ghost function After(t: Shot, k: Key): (p: nat)
    requires Known(t, k)
    ensures p <= Size(t)
  {
    if k.NilKey? then 0
    else if InArray(|t.arr|, k) then k.n
    else |t.arr| + NodeOf(t.node, k) + 1
  }

  /** `p` is the first slot in use from `from` on. */
  ghost predicate FirstFrom(t: Shot, from: nat, p: nat) {
    from <= p < Size(t) && SlotValue(t, p) != Nil && forall q :: from <= q < p ==> SlotValue(t, q) == Nil
  }

  ghost predicate NoneFrom(t: Shot, from: nat) {
    forall q :: from <= q < Size(t) ==> SlotValue(t, q) == Nil
  }

  /** `luaH_next` gives key `k2` after `k`. */
  ghost predicate NextIs(t: Shot, k: Key, k2: Key) {
    Known(t, k) && exists p :: FirstFrom(t, After(t, k), p) && SlotKey(t, p) == k2
  }

  ghost predicate NextEnds(t: Shot, k: Key) {
    Known(t, k) && NoneFrom(t, After(t, k))
  }

  ghost predicate Proper(t: Shot) {
    KeysOk(|t.arr|, t.node) && Single(t.node)
  }

  /** The same keys in the same slots: values may have been overwritten, or
      cleared, but no key has been added. */
  ghost predicate SameKeys(t: Shot, u: Shot) {
    && |t.arr| == |u.arr| && |t.node| == |u.node|
    && forall i :: 0 <= i < |t.node| ==> t.node[i].key == u.node[i].key
  }

  lemma SlotKnown(t: Shot, p: nat)
    requires Proper(t) && p < Size(t) && SlotValue(t, p) != Nil
    ensures Known(t, SlotKey(t, p)) && After(t, SlotKey(t, p)) == p + 1
  {
    if p >= |t.arr| {
      var i := p - |t.arr|;
      UsedKeyed(t.node);
      assert Keyed(t.node, i);
      NodeUnique(|t.arr|, t.node, KeyAt(t.node, i), i);
    }
  }

  lemma SameAfter(t: Shot, u: Shot, k: Key)
    requires Proper(t) && Proper(u) && SameKeys(t, u) && Known(t, k)
    ensures Known(u, k) && After(u, k) == After(t, k)
  {
    if !k.NilKey? && !InArray(|t.arr|, k) {
      var i := NodeOf(t.node, k);
      assert u.node[i].key == Some(k);
      NodeUnique(|u.arr|, u.node, k, i);
    }
  }

  /** The key handed to the `i`-th call. */
  function Given(keys: seq<Key>, i: nat): Key
    requires i <= |keys|
  {
    if i == 0 then NilKey else keys[i - 1]
  }

  /** A traversal under way: `keys[i]` is what `next` gives in state `shots[i]`. */
  ghost predicate Walks(shots: seq<Shot>, keys: seq<Key>) {
    && |shots| == |keys| + 1
    && (forall i :: 0 <= i < |shots| ==> Proper(shots[i]) && SameKeys(shots[0], shots[i]))
    && (forall i :: 0 <= i < |keys| ==> NextIs(shots[i], Given(keys, i), keys[i]))
  }

  /** A whole traversal: in the last state there is nothing more. */
  ghost predicate Traverses(shots: seq<Shot>, keys: seq<Key>) {
    Walks(shots, keys) && NextEnds(shots[|keys|], Given(keys, |keys|))
  }

  lemma StepForward(t: Shot, k: Key, k2: Key)
    requires Proper(t) && NextIs(t, k, k2)
    ensures Known(t, k2) && After(t, k2) > After(t, k) && FirstFrom(t, After(t, k), After(t, k2) - 1)
  {
    var p :| FirstFrom(t, After(t, k), p) && SlotKey(t, p) == k2;
    SlotKnown(t, p);
  }

  /** Where the traversal is after `i` steps, in the order of the first state. */
  ghost function Reached(shots: seq<Shot>, keys: seq<Key>, i: nat): nat
    requires Walks(shots, keys) && i <= |keys|
    requires i > 0 ==> Known(shots[0], keys[i - 1])
  {
    if i == 0 then 0 else After(shots[0], keys[i - 1])
  }

  lemma {:induction false} KeysKnown(shots: seq<Shot>, keys: seq<Key>, i: nat)
    requires Walks(shots, keys) && i < |keys|
    ensures Known(shots[0], keys[i]) && Known(shots[i], keys[i])
    ensures After(shots[i], keys[i]) == After(shots[0], keys[i])
  {
    Part(shots, keys, i);
    StepForward(shots[i], Given(keys, i), keys[i]);
    SameBack(shots[0], shots[i], keys[i]);
  }

  lemma SameBack(t: Shot, u: Shot, k: Key)
    requires Proper(t) && Proper(u) && SameKeys(t, u) && Known(u, k)
    ensures Known(t, k) && After(u, k) == After(t, k)
  {
    SameAfter(u, t, k);
  }

  /** Every step goes forward, over slots that are empty at that moment. */
  lemma StepReached(shots: seq<Shot>, keys: seq<Key>, i: nat)
    requires Walks(shots, keys) && i < |keys|
    ensures (i > 0 ==> Known(shots[0], keys[i - 1])) && Known(shots[0], keys[i])
    ensures Reached(shots, keys, i) < Reached(shots, keys, i + 1)
    ensures FirstFrom(shots[i], Reached(shots, keys, i), Reached(shots, keys, i + 1) - 1)
  {
    hide Walks, NextIs, FirstFrom, After, Known, Proper, SameKeys;
    KeysKnown(shots, keys, i);
    Part(shots, keys, i);
    StepForward(shots[i], Given(keys, i), keys[i]);
    if i > 0 {
      KeysKnown(shots, keys, i - 1);
      Part(shots, keys, i - 1);
      SameAfter(shots[0], shots[i], keys[i - 1]);
    } else {
      AfterNil(shots[0]);
    }
  }

  lemma AfterNil(t: Shot)
    ensures Known(t, NilKey) && After(t, NilKey) == 0
  {}

  lemma Part(shots: seq<Shot>, keys: seq<Key>, i: nat)
    requires Walks(shots, keys) && i < |keys|
    ensures |shots| == |keys| + 1 && Proper(shots[0]) && Proper(shots[i]) && SameKeys(shots[0], shots[i]) && NextIs(shots[i], Given(keys, i), keys[i])
  {}

  lemma {:induction false} Increasing(shots: seq<Shot>, keys: seq<Key>, i: nat, j: nat)
    requires Walks(shots, keys) && i < j < |keys|
    ensures Known(shots[0], keys[i]) && Known(shots[0], keys[j])
    ensures After(shots[0], keys[i]) < After(shots[0], keys[j])
    decreases j
  {
    hide Walks, FirstFrom;
    StepReached(shots, keys, j);
    if i < j - 1 { Increasing(shots, keys, i, j - 1); }
  }

  /** The slot of a key that a traversal has gone past has been visited, if it has
      had a value all the time. */
  lemma {:induction false} PassedVisited(shots: seq<Shot>, keys: seq<Key>, n: nat, p: nat)
    requires Walks(shots, keys) && n <= |keys| && p < Size(shots[0])
    requires n > 0 ==> Known(shots[0], keys[n - 1])
    requires p < Reached(shots, keys, n)
    requires AlwaysUsed(shots, p)
    ensures exists i :: 0 <= i < n && keys[i] == SlotKey(shots[0], p)
    decreases n
  {
    hide Proper, SameKeys, NextIs, NextEnds, Known, After, Walks, AlwaysUsed, FirstFrom, SlotKey, SlotValue;
    Part(shots, keys, n - 1);
    UsedAt(shots, p, n - 1);
    StepReached(shots, keys, n - 1);
    if p < Reached(shots, keys, n - 1) {
      PassedVisited(shots, keys, n - 1, p);
    } else {
      FirstIsThere(shots[n - 1], Reached(shots, keys, n - 1), Reached(shots, keys, n) - 1, p);
      AfterReached(shots, keys, n, p);
    }
  }

  ghost predicate AlwaysUsed(shots: seq<Shot>, p: nat) {
    forall i :: 0 <= i < |shots| ==> p < Size(shots[i]) && SlotValue(shots[i], p) != Nil
  }

  lemma UsedAt(shots: seq<Shot>, p: nat, i: nat)
    requires AlwaysUsed(shots, p) && i < |shots|
    ensures p < Size(shots[i]) && SlotValue(shots[i], p) != Nil
  {}

  lemma FirstIsThere(t: Shot, from: nat, p: nat, q: nat)
    requires FirstFrom(t, from, p) && from <= q <= p && SlotValue(t, q) != Nil
    ensures q == p
  {}

  lemma AfterReached(shots: seq<Shot>, keys: seq<Key>, n: nat, p: nat)
    requires Walks(shots, keys) && 0 < n <= |keys| && p < Size(shots[0])
    requires Known(shots[0], keys[n - 1]) && Reached(shots, keys, n) == p + 1
    ensures keys[n - 1] == SlotKey(shots[0], p)
  {
    Part(shots, keys, n - 1);
    hide Walks, NextIs, Proper;
    AfterSame(shots[0], keys[n - 1], p);
  }

  lemma AfterSame(t: Shot, k: Key, p: nat)
    requires Known(t, k) && p < Size(t) && After(t, k) == p + 1
    ensures SlotKey(t, p) == k
  {}

  /** A traversal goes forward with every step, so it stops. */
  lemma TraversalStops(shots: seq<Shot>, keys: seq<Key>)
    requires Walks(shots, keys)
    ensures |keys| <= Size(shots[0])
  {
    if |keys| > 0 {
      KeysKnown(shots, keys, |keys| - 1);
      GoneFar(shots, keys, |keys|);
    }
  }

  lemma {:induction false} GoneFar(shots: seq<Shot>, keys: seq<Key>, n: nat)
    requires Walks(shots, keys) && n <= |keys| && (n > 0 ==> Known(shots[0], keys[n - 1]))
    ensures Reached(shots, keys, n) >= n
  {
    if n > 0 {
      hide Walks, After, Known;
      StepReached(shots, keys, n - 1);
      GoneFar(shots, keys, n - 1);
    }
  }

  /** Traversal is complete: no key twice, and every key that has a value from
      beginning to end exactly once, although values of existing keys may be
      overwritten or cleared on the way. */
  lemma TraversalComplete(shots: seq<Shot>, keys: seq<Key>)
    requires Traverses(shots, keys)
    ensures forall i, j :: 0 <= i < j < |keys| ==> keys[i] != keys[j]
    ensures forall i :: 0 <= i < |keys| ==> ValueOf(shots[i].arr, shots[i].node, keys[i]) != Nil
    ensures forall k :: (forall i :: 0 <= i < |shots| ==> ValueOf(shots[i].arr, shots[i].node, k) != Nil) ==> k in keys
  {
    forall i, j | 0 <= i < j < |keys| ensures keys[i] != keys[j] { Increasing(shots, keys, i, j); }
    forall i | 0 <= i < |keys| ensures ValueOf(shots[i].arr, shots[i].node, keys[i]) != Nil { VisitedValue(shots, keys, i); }
    forall k | forall i :: 0 <= i < |shots| ==> ValueOf(shots[i].arr, shots[i].node, k) != Nil ensures k in keys {
      KeyVisited(shots, keys, k);
    }
  }

  lemma VisitedValue(shots: seq<Shot>, keys: seq<Key>, i: nat)
    requires Walks(shots, keys) && i < |keys|
    ensures ValueOf(shots[i].arr, shots[i].node, keys[i]) != Nil
  {
    var t := shots[i];
    Part(shots, keys, i);
    StepForward(t, Given(keys, i), keys[i]);
    hide Walks, NextIs;
    var p := After(t, keys[i]) - 1;
    assert SlotValue(t, p) != Nil;
    SlotKnown(t, p);
    NotNilKey(t, p);
    AfterSame(t, keys[i], p);
  }

  lemma NotNilKey(t: Shot, p: nat)
    requires Proper(t) && p < Size(t) && SlotValue(t, p) != Nil
    ensures ValueOf(t.arr, t.node, SlotKey(t, p)) == SlotValue(t, p) && !SlotKey(t, p).NilKey?
  {
    if p >= |t.arr| {
      var i := p - |t.arr|;
      UsedKeyed(t.node);
      assert Keyed(t.node, i);
      NodeUnique(|t.arr|, t.node, KeyAt(t.node, i), i);
    }
  }

  lemma KeyVisited(shots: seq<Shot>, keys: seq<Key>, k: Key)
    requires Traverses(shots, keys)
    requires forall i :: 0 <= i < |shots| ==> ValueOf(shots[i].arr, shots[i].node, k) != Nil
    ensures k in keys
  {
    hide Traverses, Walks, NextIs, NextEnds, FirstFrom, After, Known, Proper, SameKeys;
    Ends(shots, keys);
    var t := shots[0];
    var p := SlotOf(t, k);
    forall i | 0 <= i < |shots| ensures Size(shots[i]) == Size(t) && SlotValue(shots[i], p) != Nil {
      Ends(shots, keys);
      SlotStays(t, shots[i], k, p);
    }
    EndReached(shots, keys, p);
    PassedVisited(shots, keys, |keys|, p);
  }

  ghost function SlotOf(t: Shot, k: Key): (p: nat)
    requires ValueOf(t.arr, t.node, k) != Nil
    ensures p < Size(t) && SlotKey(t, p) == k
  {
    if InArray(|t.arr|, k) then k.n - 1 else |t.arr| + NodeOf(t.node, k)
  }

  lemma Ends(shots: seq<Shot>, keys: seq<Key>)
    requires Traverses(shots, keys)
    ensures Walks(shots, keys) && |shots| == |keys| + 1 && NextEnds(shots[|keys|], Given(keys, |keys|))
    ensures forall i :: 0 <= i < |shots| ==> Proper(shots[i]) && SameKeys(shots[0], shots[i])
  {}

  /** At the end everything with a value has been passed. */
  lemma EndReached(shots: seq<Shot>, keys: seq<Key>, p: nat)
    requires Traverses(shots, keys) && p < Size(shots[0]) && Size(shots[|keys|]) == Size(shots[0]) && SlotValue(shots[|keys|], p) != Nil
    ensures |keys| > 0 ==> Known(shots[0], keys[|keys| - 1])
    ensures p < Reached(shots, keys, |keys|)
  {
    hide Traverses, Walks, NextIs, FirstFrom, Known, Proper, SameKeys;
    Ends(shots, keys);
    var n := |keys|;
    if n > 0 {
      KeysKnown(shots, keys, n - 1);
      SameAfter(shots[0], shots[n], keys[n - 1]);
    }
  }

  lemma SlotStays(t: Shot, u: Shot, k: Key, p: nat)
    requires Proper(t) && Proper(u) && SameKeys(t, u) && ValueOf(t.arr, t.node, k) != Nil && ValueOf(u.arr, u.node, k) != Nil
    requires p == SlotOf(t, k)
    ensures Size(u) == Size(t) && SlotValue(u, p) != Nil
  {
    if !InArray(|t.arr|, k) {
      var i := NodeOf(t.node, k);
      assert u.node[i].key == Some(k);
      NodeUnique(|u.arr|, u.node, k, i);
    }
  }
}
