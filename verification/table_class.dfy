/** Tables as a program uses them: `luaH_get`, `luaH_set`, with `newkey`, `rehash`
    and `resize` underneath. */
module Tables {
  import opened TableCore
  import opened TableSizes
  import opened TableCount
  import opened TableSteps
  import opened TableNext

  const MAX_INT := 0x7FFF_FFFD

  datatype Slot = ArraySlot(i: nat) | NodeSlot(i: nat)

  class Table {
    const hash: Hash
    var arr: seq<Value>
    var node: seq<Node>
    /** All nodes from here on are in use. */
    var lastfree: nat
    /** The hash part is the shared dummy node. */
    var dummy: bool
    ghost var tail: seq<seq<nat>>

    ghost predicate Valid()
      reads this
    {
      && Sound(hash, |arr|, node, tail) && |arr| <= Pow2(MAXBITS)
      && (if dummy then node == [EMPTY] && lastfree == 0 else LastFree(node, lastfree))
    }

    /** The value of a key; the table is the map from keys to these values. */
    ghost function At(k: Key): Value
      reads this
    {
      ValueOf(arr, node, k)
    }

    ghost predicate Unused()
      reads this
    {
      !dummy && exists i :: 0 <= i < |node| && node[i].key.None?
    }

    /** `luaH_new`. */
    constructor (h: Hash, narray: nat, nhash: nat)
      requires narray <= Pow2(MAXBITS)
      ensures Valid() && hash == h && |arr| == narray && forall k :: At(k) == Nil
    {
      hash := h;
      arr := seq(narray, _ => Nil);
      new;
      SetNodeVector(nhash);
      assert forall k :: !HasNode(node, k);
    }

    /** `setnodevector`. */
    method SetNodeVector(size: nat)
      modifies `node, `lastfree, `dummy, `tail
      ensures NodeSize(|node|, size) && forall i :: 0 <= i < |node| ==> node[i] == EMPTY
      ensures forall asize :: Sound(hash, asize, node, tail)
      ensures dummy <==> size == 0
      ensures if dummy then node == [EMPTY] && lastfree == 0 else LastFree(node, lastfree)
    {
      if size == 0 {
        assert Pow2(0) == 1;
        node, lastfree, dummy := [EMPTY], 0, true;
      } else {
        var l := CeilLog2(size);
        var n := Pow2(l);
        SliceSize(size, l);
        node, lastfree, dummy := seq(n, _ => EMPTY), n, false;
      }
      tail := seq(|node|, i => [i]);
      EmptySound(hash, node, tail);
    }

    // ---- Looking up -------------------------------------------------------

    /** The loop of `luaH_get` over one chain. */
    method FindNode(k: Key) returns (found: bool, i: nat)
      requires Valid()
      ensures found == HasNode(node, k)
      ensures found ==> i < |node| && node[i].key == Some(k)
    {
      hide Main, Single, KeysOk;
      i := Main(hash, |node|, k);
      ghost var start := i;
      TailHead(node, tail, i);
      while true
        invariant i < |node| && i in tail[start]
        invariant forall j :: j in tail[start] && j < |node| && node[j].key == Some(k) ==> j in tail[i]
        decreases |tail[i]|
      {
        assert TailAt(node, tail, i);
        TailHead(node, tail, i);
        if node[i].key == Some(k) { return true, i; }
        if node[i].next == -1 {
          NotInChain(hash, node, tail, k, start);
          return false, i;
        }
        TailNext(node, tail, start, i);
        i := node[i].next;
      }
    }

    /** `luaH_get`. */
    method Get(k: Key) returns (v: Value)
      requires Valid()
      ensures v == At(k)
    {
      if InArray(|arr|, k) { return arr[k.n - 1]; }
      if k.NilKey? {
        NoNilKey(|arr|, node);
        return Nil;
      }
      var found, i := FindNode(k);
      if found { NodeUnique(|arr|, node, k, i); }
      v := if found then node[i].val else Nil;
    }

    // ---- New keys ---------------------------------------------------------

    /** `getfreepos`; a failed search is always followed by a rehash. */
    method GetFreePos() returns (n: int)
      requires Valid()
      modifies `lastfree
      ensures n >= 0 ==> n < |node| && node[n].key.None? && !dummy && lastfree == n && LastFree(node, n + 1)
      ensures n < 0 ==> Valid() && !Unused()
    {
      hide Sound;
      while lastfree > 0
        invariant if dummy then lastfree == 0 else LastFree(node, lastfree)
        decreases lastfree
      {
        lastfree := lastfree - 1;
        if node[lastfree].key.None? { return lastfree; }
        UsedMore(node, lastfree);
      }
      n := -1;
    }

    /** The node before `m` in the chain of `start`. */
    method Previous(start: nat, m: nat) returns (p: nat)
      requires Linked(node, tail) && start < |node| && m in tail[start] && start != m
      ensures p < |node| && node[p].next == m
    {
      p := start;
      assert TailAt(node, tail, p);
      while node[p].next != m
        invariant p < |node| && p != m && m in tail[p] && TailAt(node, tail, p)
        decreases |tail[p]|
      {
        p := node[p].next;
        assert TailAt(node, tail, p);
      }
    }

    /** `newkey`, when there is a node for the key. */
    method PlaceKey(k: Key, mp: nat, n: int) returns (i: nat)
      requires Sound(hash, |arr|, node, tail) && |arr| <= Pow2(MAXBITS) && !dummy
      requires !HasNode(node, k) && !InArray(|arr|, k) && !k.NilKey? && !k.NaN? && mp == Main(hash, |node|, k)
      requires if node[mp].val == Nil then LastFree(node, lastfree)
               else 0 <= n < |node| && node[n].key.None? && lastfree == n && LastFree(node, n + 1)
      modifies `node, `tail
      ensures Valid() && i < |node| == |old(node)| && node[i].key == Some(k) && node[i].val == Nil
      ensures forall q :: At(q) == old(At(q))
      ensures AllKeys(node) <= AllKeys(old(node)) + {k}
    {
      hide Sound, LastFree, ValueOf;
      if node[mp].val == Nil {
        PlaceHere(k, mp);
        i := mp;
      } else {
        OccupantKeyed(hash, |arr|, node, tail, mp);
        var othern := Main(hash, |node|, node[mp].key.value);
        if othern != mp {
          DriveOut(k, mp, n, othern);
          i := mp;
        } else {
          JoinChain(k, mp, n);
          i := n;
        }
      }
    }

    /** The main position is free. */
    method PlaceHere(k: Key, mp: nat)
      requires Sound(hash, |arr|, node, tail) && |arr| <= Pow2(MAXBITS) && !dummy && LastFree(node, lastfree)
      requires !HasNode(node, k) && !InArray(|arr|, k) && !k.NilKey? && !k.NaN? && mp == Main(hash, |node|, k) && node[mp].val == Nil
      modifies `node
      ensures Valid() && mp < |node| == |old(node)| && node[mp].key == Some(k) && node[mp].val == Nil
      ensures forall q :: At(q) == old(At(q))
      ensures AllKeys(node) <= AllKeys(old(node)) + {k}
    {
      hide Main, Linked, Placed, Single, LastFree, ValueOf;
      ghost var node0 := node;
      PlaceFree(hash, |arr|, node, tail, k);
      node := node[mp := node[mp].(key := Some(k))];
      FreeValues(arr, node0, k, mp);
      FreeUsed(node0, mp, k, lastfree);
    }

    /** The occupant is out of its main position: it moves to the free node. */
    method DriveOut(k: Key, mp: nat, n: nat, othern: nat)
      requires Sound(hash, |arr|, node, tail) && |arr| <= Pow2(MAXBITS) && !dummy
      requires !HasNode(node, k) && !InArray(|arr|, k) && !k.NilKey? && !k.NaN? && mp == Main(hash, |node|, k)
      requires n < |node| && node[n].key.None? && lastfree == n && LastFree(node, n + 1)
      requires node[mp].key.Some? && othern == Main(hash, |node|, node[mp].key.value) && othern != mp
      modifies `node, `tail
      ensures Valid() && mp < |node| == |old(node)| && node[mp].key == Some(k) && node[mp].val == Nil
      ensures forall q :: At(q) == old(At(q))
      ensures AllKeys(node) <= AllKeys(old(node)) + {k}
    {
      hide Main, Sound, Linked, LastFree, ValueOf, AllKeys, Moved, HasNode, TailsMoved, Pow2;
      ghost var node0 := node;
      Occupied(hash, |arr|, node, tail, mp);
      var p := Previous(othern, mp);
      DrivenOut(hash, arr, node, tail, k, mp, n, p);
      tail := TailsMoved(tail, mp, n);
      node := node[p := node[p].(next := n)];
      node := node[n := node[mp]];
      node := node[mp := Node(Some(k), Nil, -1)];
    }

    /** The occupant is in its own main position: the new key goes behind it. */
    method JoinChain(k: Key, mp: nat, n: nat)
      requires Sound(hash, |arr|, node, tail) && |arr| <= Pow2(MAXBITS) && !dummy
      requires !HasNode(node, k) && !InArray(|arr|, k) && !k.NilKey? && !k.NaN? && mp == Main(hash, |node|, k)
      requires n < |node| && node[n].key.None? && lastfree == n && LastFree(node, n + 1)
      requires node[mp].key.Some? && mp == Main(hash, |node|, node[mp].key.value)
      modifies `node, `tail
      ensures Valid() && n < |node| == |old(node)| && node[n].key == Some(k) && node[n].val == Nil
      ensures forall q :: At(q) == old(At(q))
      ensures AllKeys(node) <= AllKeys(old(node)) + {k}
    {
      hide Main, Linked, Placed, LastFree, ValueOf;
      ghost var node0 := node;
      TailLength(node, tail, mp);
      PlaceBehind(hash, |arr|, node, tail, k, n);
      tail := TailsBehind(tail, mp, n);
      UnusedEmpty(node0, n);
      hide Single;
      node := node[n := Node(Some(k), Nil, node[mp].next)];
      node := node[mp := node[mp].(next := n)];
      assert node == Behind(node0, mp, n, k);
      BehindValues(arr, node0, mp, n, k);
      BehindUsed(node0, mp, n, k);
    }

    /** `newkey`. */
    method NewKey(k: Key) returns (s: Slot)
      requires Valid() && !HasNode(node, k) && !InArray(|arr|, k) && !k.NilKey? && !k.NaN?
      modifies this
      ensures Valid() && IsSlot(s, k) && forall q :: At(q) == old(At(q))
      ensures old(Unused()) ==> |arr| == |old(arr)| && |node| == |old(node)| && dummy == old(dummy) && AllKeys(node) <= old(AllKeys(node)) + {k}
      decreases if Unused() then 0 else 1, 4
    {
      var mp := Main(hash, |node|, k);
      var n := -1;
      if node[mp].val != Nil || dummy {
        n := GetFreePos();
        if n < 0 {
          Rehash(k);
          s := SetSlot(k);
          return;
        }
      }
      var i := PlaceKey(k, mp, n);
      s := NodeSlot(i);
    }

    ghost predicate IsSlot(s: Slot, k: Key)
      reads this
    {
      match s
      case ArraySlot(i) => InArray(|arr|, k) && i == k.n - 1
      case NodeSlot(i) => !InArray(|arr|, k) && i < |node| && node[i].key == Some(k)
    }

    /** `luaH_set`: the place for the value of a key, which is there afterwards. */
    method SetSlot(k: Key) returns (s: Slot)
      requires Valid() && !k.NilKey? && !k.NaN?
      modifies this
      ensures Valid() && IsSlot(s, k) && forall q :: At(q) == old(At(q))
      ensures old(InArray(|arr|, k) || HasNode(node, k)) ==> arr == old(arr) && node == old(node)
      ensures old(Unused() || InArray(|arr|, k) || HasNode(node, k)) ==>
                |arr| == |old(arr)| && |node| == |old(node)| && dummy == old(dummy)
                && AllKeys(node) <= old(AllKeys(node)) + (if InArray(|arr|, k) then {} else {k})
      decreases if Unused() || InArray(|arr|, k) || HasNode(node, k) then 0 else 1, 5
    {
      if InArray(|arr|, k) { return ArraySlot(k.n - 1); }
      var found, i := FindNode(k);
      if found { return NodeSlot(i); }
      s := NewKey(k);
    }

    /** The assignment to the place that `luaH_set` returned. */
    method Store(s: Slot, k: Key, v: Value)
      requires Valid() && IsSlot(s, k)
      modifies `arr, `node
      ensures Valid() && |arr| == |old(arr)| && |node| == |old(node)| && AllKeys(node) == AllKeys(old(node))
      ensures forall i :: 0 <= i < |node| ==> node[i].key == old(node)[i].key
      ensures forall q :: At(q) == if q == k then v else old(At(q))
    {
      if s.ArraySlot? { StoreArray(s.i, v); } else { StoreNode(s.i, v); }
    }

    method StoreArray(i: nat, v: Value)
      requires Valid() && i < |arr|
      modifies `arr
      ensures Valid() && |arr| == |old(arr)|
      ensures forall q :: At(q) == if q == Int(i + 1) then v else old(At(q))
    {
      hide Sound, ValueOf, LastFree;
      ghost var arr0 := arr;
      ArrValues(arr, node, i, v);
      arr := arr[i := v];
      forall q ensures At(q) == if q == Int(i + 1) then v else old(At(q)) {
        assert At(q) == ValueOf(arr0[i := v], node, q) && old(At(q)) == ValueOf(arr0, node, q);
      }
    }

    method StoreNode(i: nat, v: Value)
      requires Valid() && Keyed(node, i)
      modifies `node
      ensures Valid() && |node| == |old(node)| && AllKeys(node) == AllKeys(old(node))
      ensures forall i :: 0 <= i < |node| ==> node[i].key == old(node)[i].key
      ensures forall q :: At(q) == if q == old(node)[i].key.value then v else old(At(q))
    {
      hide ValueOf, LastFree;
      NodeStored(hash, arr, node, tail, i, v);
      node := node[i := node[i].(val := v)];
    }

    /** `t[k] = v`: an error for nil and NaN keys, otherwise exactly that entry
        of the map changes.  A key that is there already keeps its slot, and so
        does every other key. */
    method Set(k: Key, v: Value) returns (ok: bool)
      requires Valid()
      modifies this
      ensures Valid() && ok == (!k.NilKey? && !k.NaN?)
      ensures forall q :: At(q) == if ok && q == k then v else old(At(q))
      ensures old(InArray(|arr|, k) || HasNode(node, k)) ==> SameKeys(old(Shot(arr, node)), Shot(arr, node))
    {
      ok := !k.NilKey? && !k.NaN?;
      if ok {
        var s := SetSlot(k);
        Store(s, k, v);
      }
    }

    // ---- Traversal --------------------------------------------------------

    /** `luaH_next`: an error for a key that is not there; otherwise the next pair
        in use, if any. */
    method Next(k: Key) returns (ok: bool, more: bool, k2: Key, v: Value)
      requires Valid()
      ensures ok == Known(Shot(arr, node), k)
      ensures ok && more ==> NextIs(Shot(arr, node), k, k2) && v == At(k2) && v != Nil
      ensures ok && !more ==> NextEnds(Shot(arr, node), k)
    {
      hide Sound, LastFree, ValueOf, FirstFrom, NoneFrom, NodeOf, Proper, NextIs;
      ghost var t := Shot(arr, node);
      SoundProper(hash, t, tail);
      ok, more, k2, v := true, false, NilKey, Nil;
      var i := 0;
      if InArray(|arr|, k) {
        i := k.n;
      } else if !k.NilKey? {
        var found, n := FindNode(k);
        if !found { ok := false; return; }
        NodeUnique(|arr|, node, k, n);
        i := |arr| + n + 1;
      }
      var p := FirstUsed(i);
      if p < |arr| {
        FirstValue(t, k, p);
        more, k2, v := true, Int(p + 1), arr[p];
      } else if p - |arr| < |node| {
        FirstValue(t, k, p);
        more, k2, v := true, node[p - |arr|].key.value, node[p - |arr|].val;
      }
    }

    /** The loops of `luaH_next`: the first slot in use. */
    method FirstUsed(from: nat) returns (p: nat)
      requires from <= |arr| + |node|
      ensures from <= p <= |arr| + |node|
      ensures p < |arr| + |node| ==> FirstFrom(Shot(arr, node), from, p)
      ensures p == |arr| + |node| ==> NoneFrom(Shot(arr, node), from)
    {
      ghost var t := Shot(arr, node);
      p := from;
      while p < |arr|
        invariant from <= p && (from <= |arr| ==> p <= |arr|) && (from > |arr| ==> p == from)
        invariant forall q :: from <= q < p ==> SlotValue(t, q) == Nil
      {
        if arr[p] != Nil { return; }
        p := p + 1;
      }
      while p - |arr| < |node|
        invariant from <= p <= |arr| + |node| && p >= |arr|
        invariant forall q :: from <= q < p ==> SlotValue(t, q) == Nil
      {
        if node[p - |arr|].val != Nil { return; }
        p := p + 1;
      }
    }

    // ---- Length -----------------------------------------------------------

    /** An index whose value is there while the next one is not (0: none is). */
    ghost predicate Boundary(n: nat)
      reads this
    {
      (n == 0 || At(Int(n)) != Nil) && At(Int(n + 1)) == Nil
    }

    /** `luaH_getn`. */
    method GetN() returns (n: nat)
      requires Valid()
      ensures Boundary(n)
    {
      var j := |arr|;
      if j > 0 && arr[j - 1] == Nil {
        var i := 0;
        while j - i > 1
          invariant 0 <= i < j <= |arr| && (i == 0 || arr[i - 1] != Nil) && arr[j - 1] == Nil
        {
          var m := (i + j) / 2;
          if arr[m - 1] == Nil { j := m; } else { i := m; }
        }
        n := i;
      } else if dummy {
        n := j;
      } else {
        n := UnboundSearch(j);
      }
    }

    /** `unbound_search`; should the indices overflow, a linear search. */
    method UnboundSearch(start: nat) returns (n: nat)
      requires Valid() && (start == 0 || At(Int(start)) != Nil)
      ensures Boundary(n)
    {
      hide Sound, ValueOf, LastFree;
      var i, j := start, start + 1;
      var v := Get(Int(j));
      while v != Nil
        invariant v == At(Int(j)) && 0 <= i < j && (i == 0 || At(Int(i)) != Nil) && 1 <= j
        decreases MAX_INT - j
      {
        i := j;
        j := 2 * j;
        if j > MAX_INT { n := LinearSearch(); return; }
        v := Get(Int(j));
      }
      while j - i > 1
        invariant 0 <= i < j && (i == 0 || At(Int(i)) != Nil) && At(Int(j)) == Nil
      {
        var m := (i + j) / 2;
        v := Get(Int(m));
        if v == Nil { j := m; } else { i := m; }
      }
      n := i;
    }

    method LinearSearch() returns (n: nat)
      requires Valid()
      ensures Boundary(n)
    {
      hide Sound, ValueOf, LastFree, LiveKeys;
      var i := 1;
      var v := Get(Int(i));
      ghost var seen: set<Key> := {};
      while v != Nil
        invariant i >= 1 && v == At(Int(i)) && (i == 1 || At(Int(i - 1)) != Nil)
        invariant seen <= LiveKeys(arr, node) && |seen| == i - 1 && forall q <- seen :: q.Int? && q.n < i
        decreases |LiveKeys(arr, node)| + 1 - i
      {
        UsedLive(arr, node, Int(i));
        seen := seen + {Int(i)};
        Subsets(seen, LiveKeys(arr, node));
        i := i + 1;
        v := Get(Int(i));
      }
      n := i - 1;
    }

    // ---- Rehash -----------------------------------------------------------

    /** `resize`: new sizes, and everything back in its place.  `keys` are the keys
        that will be in the hash part, for which there is room. */
    method Resize(nasize: nat, nhsize: nat, ghost keys: set<Key>)
      requires Valid() && nasize <= Pow2(MAXBITS)
      requires forall q :: At(q) != Nil && !InArray(nasize, q) ==> q in keys
      requires |keys| <= nhsize
      modifies this
      ensures Valid() && |arr| == nasize && NodeSize(|node|, nhsize) && (dummy <==> nhsize == 0)
      ensures forall q :: At(q) == old(At(q))
      ensures AllKeys(node) <= keys
      decreases 1, 2
    {
      hide Sound, ValueOf, LastFree, AllKeys, NodeSize, Pow2;
      var arr0, node0 := arr, node;
      ghost var tail0 := tail;
      if nasize > |arr| {
        arr := arr + seq(nasize - |arr|, _ => Nil);
      }
      SetNodeVector(nhsize);
      if nasize < |arr0| { arr := arr[..nasize]; }
      NoKeys(node);
      ResizeStart(arr0, node0, arr, node);
      if nasize < |arr0| { ReinsertSlots(arr0, node0, nasize, nhsize, keys); }
      ReinsertNodes(arr0, node0, tail0, nasize, nhsize, keys);
    }

    /** The values of the slice that vanishes from the array part. */
    method ReinsertSlots(arr0: seq<Value>, ghost node0: seq<Node>, nasize: nat, nhsize: nat, ghost keys: set<Key>)
      requires Resizing(nasize, nhsize, keys) && nasize < |arr0|
      requires forall q :: ValueOf(arr0, node0, q) != Nil && !InArray(nasize, q) ==> q in keys
      requires forall q :: At(q) == if InArray(nasize, q) then ValueOf(arr0, node0, q) else Nil
      modifies this
      ensures Resizing(nasize, nhsize, keys)
      ensures forall q :: At(q) == if InArray(|arr0|, q) then ValueOf(arr0, node0, q) else Nil
      decreases 1, 1
    {
      hide Resizing, ValueOf;
      var i := nasize;
      while i < |arr0|
        invariant nasize <= i <= |arr0| && Resizing(nasize, nhsize, keys)
        invariant forall q :: At(q) == if InArray(i, q) then ValueOf(arr0, node0, q) else Nil
        decreases |arr0| - i
      {
        ArrSlotValue(arr0, node0, i);
        if arr0[i] != Nil { Reinsert(Int(i + 1), arr0[i], nasize, nhsize, keys); }
        i := i + 1;
      }
    }

    /** The pairs of the old hash part, from its last node to the first. */
    method ReinsertNodes(ghost arr0: seq<Value>, node0: seq<Node>, ghost tail0: seq<seq<nat>>, nasize: nat, nhsize: nat, ghost keys: set<Key>)
      requires Resizing(nasize, nhsize, keys) && Sound(hash, |arr0|, node0, tail0)
      requires forall q :: ValueOf(arr0, node0, q) != Nil && !InArray(nasize, q) ==> q in keys
      requires forall q :: At(q) == if InArray(|arr0|, q) then ValueOf(arr0, node0, q) else Nil
      modifies this
      ensures Resizing(nasize, nhsize, keys)
      ensures forall q :: At(q) == ValueOf(arr0, node0, q)
      decreases 1, 1
    {
      hide Resizing, ValueOf, Sound, FromNode;
      NoNodeFrom(node0);
      var j := |node0|;
      while j > 0
        invariant 0 <= j <= |node0| && Resizing(nasize, nhsize, keys)
        invariant forall q :: At(q) == if InArray(|arr0|, q) || FromNode(node0, j, q) then ValueOf(arr0, node0, q) else Nil
      {
        j := j - 1;
        forall q ensures FromNode(node0, j, q) <==> FromNode(node0, j + 1, q) || node0[j].key == Some(q) { FromNodeStep(node0, j, q); }
        OldValue(hash, arr0, node0, tail0, j);
        if node0[j].val != Nil { Reinsert(node0[j].key.value, node0[j].val, nasize, nhsize, keys); }
      }
      NoValue(arr0, node0);
    }

    /** One pair goes into a table that is being rebuilt; no rehash can happen. */
    method Reinsert(k: Key, v: Value, nasize: nat, nhsize: nat, ghost keys: set<Key>)
      requires Resizing(nasize, nhsize, keys) && !k.NilKey? && !k.NaN? && (InArray(nasize, k) || k in keys)
      modifies this
      ensures Resizing(nasize, nhsize, keys)
      ensures forall q :: At(q) == if q == k then v else old(At(q))
      decreases 1, 0
    {
      if !InArray(nasize, k) && !HasNode(node, k) {
        Subsets(AllKeys(node), keys - {k}) by { KeyAbsent(node, k); }
        SomeUnused(node, keys - {k}) by { KeyAbsent(node, k); }
      }
      var s := SetSlot(k);
      Store(s, k, v);
    }

    /** `rehash`: the best sizes for all keys and the new one, which then has room: that
        of the array part is the best, and the other keys just fit the nodes. */
    method Rehash(k: Key)
      requires Valid() && !HasNode(node, k) && !InArray(|arr|, k) && !k.NilKey? && !k.NaN?
      modifies this
      ensures Valid() && forall q :: At(q) == old(At(q))
      ensures Unused() || InArray(|arr|, k)
      ensures BestSize(WithKey(old(arr), old(node), k), |arr|)
      ensures NodeSize(|node|, |Outside(WithKey(old(arr), old(node), k), |arr|)|)
      decreases 1, 3
    {
      hide LiveKeys, Slice, Candidates, ArrKeys, NodeKeys, HashBound, NodeSize, Outside, BestSize, Pow2, WithKey;
      var nums, nasize := NumUseArray(arr);
      var totaluse := nasize;
      UsedKeyed(node);
      var th, ah, nums1 := NumUseHash(node, nums);
      var one, nums2 := CountInt(k, nums1);
      nasize, totaluse := nasize + ah + one, totaluse + th + 1;
      ghost var keys := WithKey(arr, node, k);
      RehashCounts(arr, node, k);
      var n, na := ComputeSizes(nums2, nasize, keys);
      BestBound(keys, n);
      KeysApart(arr, node, k);
      RoomForAll(arr, node, k, n, na);
      OutsideCount(keys, n, na);
      ghost var rest := HashBound(arr, node, n);
      forall q | At(q) != Nil && !InArray(n, q) ensures q in rest { UsedLive(arr, node, q); BoundFor(arr, node, n, q); }
      Resize(n, totaluse - na, rest);
      Enough(|node|, totaluse - na);
      if !InArray(n, k) { SomeUnused(node, rest); }
    }

    /** While a table is being rebuilt. */
    ghost predicate Resizing(nasize: nat, nhsize: nat, keys: set<Key>)
      reads this
    {
      Valid() && |arr| == nasize && NodeSize(|node|, nhsize) && (dummy <==> nhsize == 0) && AllKeys(node) <= keys && |keys| <= nhsize
    }
  }

  lemma NodeStored(h: Hash, arr: seq<Value>, node: seq<Node>, tail: seq<seq<nat>>, i: nat, v: Value)
    requires Sound(h, |arr|, node, tail) && Keyed(node, i)
    ensures var later := node[i := node[i].(val := v)];
            && Sound(h, |arr|, later, tail) && AllKeys(later) == AllKeys(node)
            && (forall l: nat :: LastFree(node, l) ==> LastFree(later, l))
            && (later == [EMPTY] <==> node == [EMPTY])
            && forall q :: ValueOf(arr, later, q) == if q == node[i].key.value then v else ValueOf(arr, node, q)
  {
    StoreSound(h, |arr|, node, tail, i, v);
    hide Linked, Single, Placed, Main;
    StoreValues(arr, node, i, v);
    assert node[0].key.None? ==> i != 0;
  }

  lemma OldValue(h: Hash, arr: seq<Value>, node: seq<Node>, tail: seq<seq<nat>>, j: nat)
    requires Sound(h, |arr|, node, tail) && j < |node|
    ensures node[j].val != Nil ==> node[j].key.Some? && !node[j].key.value.NilKey? && !node[j].key.value.NaN?
    ensures node[j].key.Some? ==> ValueOf(arr, node, node[j].key.value) == node[j].val
  {
    UsedKeyed(node);
    if node[j].key.Some? {
      assert Keyed(node, j);
      NodeUnique(|arr|, node, node[j].key.value, j);
    }
  }

  lemma NoKeys(node: seq<Node>)
    requires forall i :: 0 <= i < |node| ==> node[i] == EMPTY
    ensures AllKeys(node) == {}
  {}

  lemma NoNodeFrom(node: seq<Node>)
    ensures forall q :: !FromNode(node, |node|, q)
  {}

  lemma OccupantKeyed(h: Hash, asize: nat, node: seq<Node>, tail: seq<seq<nat>>, m: nat)
    requires Sound(h, asize, node, tail) && m < |node| && node[m].val != Nil
    ensures node[m].key.Some?
  {
    UsedKeyed(node);
  }

  lemma KeyAbsent(node: seq<Node>, k: Key)
    requires !HasNode(node, k)
    ensures k !in AllKeys(node)
  {}

  lemma BestBound(keys: set<Key>, n: nat)
    requires BestSize(keys, n)
    ensures n <= Pow2(MAXBITS)
  {
    if n != 0 {
      var l: nat :| l <= MAXBITS && n == Pow2(l) && Worth(keys, l);
      if l < MAXBITS { Pow2Grows(l, MAXBITS); }
    }
  }

  lemma BoundFor(arr: seq<Value>, node: seq<Node>, n: nat, q: Key)
    requires q in LiveKeys(arr, node) && !InArray(n, q)
    ensures q in HashBound(arr, node, n)
  {}

  lemma SoundProper(h: Hash, t: Shot, tail: seq<seq<nat>>)
    requires Sound(h, |t.arr|, t.node, tail)
    ensures Proper(t)
  {}

  /** The pair in the slot found. */
  lemma FirstValue(t: Shot, k: Key, p: nat)
    requires Proper(t) && Known(t, k) && FirstFrom(t, After(t, k), p)
    ensures NextIs(t, k, SlotKey(t, p)) && ValueOf(t.arr, t.node, SlotKey(t, p)) == SlotValue(t, p) != Nil
    ensures p >= |t.arr| ==> t.node[p - |t.arr|].key.Some?
  {
    UsedKeyed(t.node);
    NotNilKey(t, p);
  }
}
