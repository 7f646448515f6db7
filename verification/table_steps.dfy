/** What inserting a key and storing a value do to the map that a table is. */
module TableSteps {
  import opened TableCore
  import opened TableSizes
  import opened TableCount

  lemma EmptySound(h: Hash, node: seq<Node>, tail: seq<seq<nat>>)
    requires |node| > 0 && (forall i :: 0 <= i < |node| ==> node[i] == EMPTY) && tail == seq(|node|, i => [i])
    ensures forall asize :: Sound(h, asize, node, tail)
  {
    forall i | 0 <= i < |node| ensures TailAt(node, tail, i) {}
  }

  lemma NotInChain(h: Hash, node: seq<Node>, tail: seq<seq<nat>>, k: Key, start: nat)
    requires |node| > 0 && |tail| == |node| && Placed(h, node, tail) && start == Main(h, |node|, k)
    requires forall j :: j in tail[start] && j < |node| ==> node[j].key != Some(k)
    ensures !HasNode(node, k)
  {
    hide Main;
    forall i | 0 <= i < |node| ensures node[i].key != Some(k) {
      if Keyed(node, i) { assert i in tail[Main(h, |node|, node[i].key.value)]; }
    }
  }

  lemma NoNilKey(asize: nat, node: seq<Node>)
    requires KeysOk(asize, node)
    ensures !HasNode(node, NilKey)
  {}

  lemma TailLength(node: seq<Node>, tail: seq<seq<nat>>, i: nat)
    requires Linked(node, tail) && i < |node|
    ensures |tail| == |node| && |tail[i]| > 0
  {
    TailHead(node, tail, i);
  }

  /** A key out of its main position can be found from there. */
  lemma MainPlaced(h: Hash, node: seq<Node>, tail: seq<seq<nat>>, i: nat)
    requires |node| > 0 && |tail| == |node| && Placed(h, node, tail) && Keyed(node, i)
    ensures i in tail[Main(h, |node|, node[i].key.value)]
  {}

  /** Two node vectors with the same keys and values, wherever they are. */
  lemma SameValues(arr: seq<Value>, node: seq<Node>, later: seq<Node>, k: Key)
    requires KeysOk(|arr|, node) && KeysOk(|arr|, later) && !HasNode(node, k)
    requires forall i {:trigger node[i].key} :: Keyed(node, i) && node[i].val != Nil ==>
               exists j :: 0 <= j < |later| && later[j].key == node[i].key && later[j].val == node[i].val
    requires forall j {:trigger later[j].key} :: Keyed(later, j) && later[j].val != Nil ==>
               exists i :: 0 <= i < |node| && node[i].key == later[j].key && node[i].val == later[j].val
    ensures forall q :: ValueOf(arr, later, q) == ValueOf(arr, node, q)
  {
    forall q | !InArray(|arr|, q) ensures ValueOf(arr, later, q) == ValueOf(arr, node, q) {
      var v, w := ValueOf(arr, node, q), ValueOf(arr, later, q);
      if v != Nil {
        var i := NodeOf(node, q);
        assert Keyed(node, i) && node[i].key == Some(q);
        var j :| 0 <= j < |later| && later[j].key == node[i].key && later[j].val == node[i].val;
        NodeUnique(|arr|, later, q, j);
      } else if w != Nil {
        var j := NodeOf(later, q);
        assert Keyed(later, j) && later[j].key == Some(q);
        var i :| 0 <= i < |node| && node[i].key == later[j].key && node[i].val == later[j].val;
        NodeUnique(|arr|, node, q, i);
      }
    }
  }

  lemma FreeValues(arr: seq<Value>, node: seq<Node>, k: Key, m: nat)
    requires m < |node| && node[m].val == Nil && !HasNode(node, k)
    requires var later := node[m := node[m].(key := Some(k))]; KeysOk(|arr|, node) && KeysOk(|arr|, later)
    ensures var later := node[m := node[m].(key := Some(k))];
            (forall q :: ValueOf(arr, later, q) == ValueOf(arr, node, q)) && AllKeys(later) <= AllKeys(node) + {k}
  {
    var later := node[m := node[m].(key := Some(k))];
    forall i | Keyed(node, i) && node[i].val != Nil
      ensures exists j :: 0 <= j < |later| && later[j].key == node[i].key && later[j].val == node[i].val
    {
      assert later[i].key == node[i].key;
    }
    forall j | Keyed(later, j) && later[j].val != Nil
      ensures exists i :: 0 <= i < |node| && node[i].key == later[j].key && node[i].val == later[j].val
    {
      assert node[j].key == later[j].key;
    }
    SameValues(arr, node, later, k);
  }

  lemma BehindValues(arr: seq<Value>, node: seq<Node>, m: nat, n: nat, k: Key)
    requires m < |node| && n < |node| && m != n && node[n] == EMPTY && !HasNode(node, k)
    requires KeysOk(|arr|, node) && KeysOk(|arr|, Behind(node, m, n, k))
    ensures var later := Behind(node, m, n, k);
            (forall q :: ValueOf(arr, later, q) == ValueOf(arr, node, q)) && AllKeys(later) <= AllKeys(node) + {k}
  {
    var later := Behind(node, m, n, k);
    forall i | Keyed(node, i) && node[i].val != Nil
      ensures exists j :: 0 <= j < |later| && later[j].key == node[i].key && later[j].val == node[i].val
    {
      assert later[i].key == node[i].key && later[i].val == node[i].val;
    }
    forall j | Keyed(later, j) && later[j].val != Nil
      ensures exists i :: 0 <= i < |node| && node[i].key == later[j].key && node[i].val == later[j].val
    {
      assert node[j].key == later[j].key && later[j].val == node[j].val;
    }
    SameValues(arr, node, later, k);
    forall q | q in AllKeys(later) ensures q in AllKeys(node) + {k} {
      var j :| 0 <= j < |later| && later[j].key.Some? && KeyAt(later, j) == q;
      if j != n { assert node[j].key == later[j].key && KeyAt(node, j) == q; }
    }
  }

  lemma MovedValues(arr: seq<Value>, node: seq<Node>, m: nat, n: nat, p: nat, k: Key)
    requires m < |node| && n < |node| && p < |node| && m != n && p != m && p != n && node[n] == EMPTY && !HasNode(node, k)
    requires KeysOk(|arr|, node) && KeysOk(|arr|, Moved(node, m, n, p, k))
    ensures var later := Moved(node, m, n, p, k);
            (forall q :: ValueOf(arr, later, q) == ValueOf(arr, node, q)) && AllKeys(later) <= AllKeys(node) + {k}
  {
    var later := Moved(node, m, n, p, k);
    forall i | Keyed(node, i) && node[i].val != Nil
      ensures exists j :: 0 <= j < |later| && later[j].key == node[i].key && later[j].val == node[i].val
    {
      var j := if i == m then n else i;
      assert later[j].key == node[i].key && later[j].val == node[i].val;
    }
    forall j | Keyed(later, j) && later[j].val != Nil
      ensures exists i :: 0 <= i < |node| && node[i].key == later[j].key && node[i].val == later[j].val
    {
      var i := if j == n then m else j;
      assert node[i].key == later[j].key && later[j].val == node[i].val;
    }
    SameValues(arr, node, later, k);
    forall q | q in AllKeys(later) ensures q in AllKeys(node) + {k} {
      var j :| 0 <= j < |later| && later[j].key.Some? && KeyAt(later, j) == q;
      if j != m { var i := if j == n then m else j; assert node[i].key == later[j].key && KeyAt(node, i) == q; }
    }
  }

  lemma BehindUsed(node: seq<Node>, m: nat, n: nat, k: Key)
    requires m < |node| && n < |node| && node[m].key.Some? && m != n && LastFree(node, n + 1)
    ensures LastFree(Behind(node, m, n, k), n)
  {
    var later := Behind(node, m, n, k);
    forall i | n <= i < |later| ensures Keyed(later, i) { if i != n { assert Keyed(node, i) by { assert node[i].key == node[i].key; } } }
  }

  /** The three writes of the source. */
  lemma MovedSteps(node: seq<Node>, m: nat, n: nat, p: nat, k: Key)
    requires m < |node| && n < |node| && p < |node| && m != n && p != m && p != n
    ensures var a := node[p := node[p].(next := n)]; var b := a[n := a[m]]; b[m := Node(Some(k), Nil, -1)] == Moved(node, m, n, p, k)
    ensures |Moved(node, m, n, p, k)| == |node| && Moved(node, m, n, p, k)[m] == Node(Some(k), Nil, -1)
  {}

  lemma MovedUsed(node: seq<Node>, m: nat, n: nat, p: nat, k: Key)
    requires m < |node| && n < |node| && p < |node| && node[m].key.Some? && m != n && p != m && p != n && LastFree(node, n + 1)
    ensures LastFree(Moved(node, m, n, p, k), n)
  {
    var later := Moved(node, m, n, p, k);
    forall i | n <= i < |later| ensures Keyed(later, i) { if i != n { assert Keyed(node, i) by { assert node[i].key == node[i].key; } } }
  }

  /** A key that is not in its main position is found from there, and there is another
      on the way. */
  lemma Occupied(h: Hash, asize: nat, node: seq<Node>, tail: seq<seq<nat>>, m: nat)
    requires Sound(h, asize, node, tail) && Keyed(node, m)
    ensures Linked(node, tail) && |tail| == |node| && m in tail[Main(h, |node|, node[m].key.value)]
  {
    hide Main, Linked;
    TailLength(node, tail, m);
    MainPlaced(h, node, tail, m);
  }

  /** All of moving the occupant of `m` to `n` and putting the key in its place. */
  lemma DrivenOut(h: Hash, arr: seq<Value>, node: seq<Node>, tail: seq<seq<nat>>, k: Key, m: nat, n: nat, p: nat)
    requires Sound(h, |arr|, node, tail) && !HasNode(node, k) && !InArray(|arr|, k) && !k.NilKey? && !k.NaN?
    requires n < |node| && node[n].key.None? && LastFree(node, n + 1) && m == Main(h, |node|, k)
    requires Keyed(node, m) && Main(h, |node|, node[m].key.value) != m && p < |node| && node[p].next == m
    ensures var a := node[p := node[p].(next := n)]; var b := a[n := a[m]]; var later := b[m := Node(Some(k), Nil, -1)];
            && |tail| == |node| && |tail[m]| > 0 && |later| == |node| && m != n && p != m && p != n
            && later[m] == Node(Some(k), Nil, -1) && Sound(h, |arr|, later, TailsMoved(tail, m, n)) && LastFree(later, n)
            && (forall q :: ValueOf(arr, later, q) == ValueOf(arr, node, q)) && AllKeys(later) <= AllKeys(node) + {k}
  {
    hide Main, Linked, Placed, LastFree, ValueOf;
    TailLength(node, tail, m);
    PlaceMoved(h, |arr|, node, tail, k, n, p);
    UnusedEmpty(node, n);
    hide Single, Moved, KeysOk, AllKeys;
    MovedSteps(node, m, n, p, k);
    MovedValues(arr, node, m, n, p, k);
    MovedUsed(node, m, n, p, k);
  }

  lemma FreeUsed(node: seq<Node>, m: nat, k: Key, l: nat)
    requires m < |node| && LastFree(node, l)
    ensures LastFree(node[m := node[m].(key := Some(k))], l)
  {
    var later := node[m := node[m].(key := Some(k))];
    forall i | l <= i < |later| ensures Keyed(later, i) { assert Keyed(node, i) by { assert node[i].key == node[i].key; } }
  }

  // ---- Storing ------------------------------------------------------------

  lemma StoreSound(h: Hash, asize: nat, node: seq<Node>, tail: seq<seq<nat>>, i: nat, v: Value)
    requires Sound(h, asize, node, tail) && Keyed(node, i)
    ensures var later := node[i := node[i].(val := v)];
            Sound(h, asize, later, tail) && AllKeys(later) == AllKeys(node) && forall l: nat :: LastFree(node, l) ==> LastFree(later, l)
  {
    hide Linked, Single, Placed, KeysOk, AllKeys, LastFree;
    StoreKeys(node, i, v);
    StoreSingle(node, i, v);
    StoreLinks(node, tail, i, v);
    StorePlaced(h, asize, node, tail, i, v);
  }

  lemma StoreLinks(node: seq<Node>, tail: seq<seq<nat>>, i: nat, v: Value)
    requires Linked(node, tail) && Keyed(node, i)
    ensures var later := node[i := node[i].(val := v)];
            Linked(later, tail) && forall l: nat :: LastFree(node, l) ==> LastFree(later, l)
  {
    var later := node[i := node[i].(val := v)];
    forall j | 0 <= j < |node| ensures later[j].key == node[j].key && later[j].next == node[j].next {}
    forall j | 0 <= j < |later| ensures TailAt(later, tail, j) { assert TailAt(node, tail, j); }
    forall l: nat | LastFree(node, l) ensures LastFree(later, l) {
      forall j | l <= j < |later| ensures Keyed(later, j) { assert Keyed(node, j) by { assert node[j].key == node[j].key; } }
    }
  }

  lemma StorePlaced(h: Hash, asize: nat, node: seq<Node>, tail: seq<seq<nat>>, i: nat, v: Value)
    requires |node| > 0 && |tail| == |node| && Placed(h, node, tail) && KeysOk(asize, node) && Keyed(node, i)
    ensures var later := node[i := node[i].(val := v)]; Placed(h, later, tail) && KeysOk(asize, later)
  {
    hide Main;
    var later := node[i := node[i].(val := v)];
    forall j | 0 <= j < |node| ensures later[j].key == node[j].key {}
    forall j | Keyed(later, j)
      ensures var m := Main(h, |later|, later[j].key.value);
              j in tail[m] && Keyed(later, m) && Main(h, |later|, later[m].key.value) == m
    {
      assert node[j].key == later[j].key;
      var m := Main(h, |node|, node[j].key.value);
      assert later[m].key == node[m].key;
    }
  }

  lemma StoreSingle(node: seq<Node>, i: nat, v: Value)
    requires Single(node) && Keyed(node, i)
    ensures Single(node[i := node[i].(val := v)])
  {
    var later := node[i := node[i].(val := v)];
    assert forall j :: 0 <= j < |node| ==> later[j].key == node[j].key && later[j].next == node[j].next;
    forall a, b | 0 <= a < b < |later| && later[a].next == later[b].next ensures later[a].next == -1 {
      assert node[a].next == node[b].next;
    }
  }

  lemma StoreKeys(node: seq<Node>, i: nat, v: Value)
    requires Keyed(node, i)
    ensures AllKeys(node[i := node[i].(val := v)]) == AllKeys(node)
  {
    var later := node[i := node[i].(val := v)];
    forall q ensures q in AllKeys(later) <==> q in AllKeys(node) {
      if q in AllKeys(later) {
        var j :| 0 <= j < |later| && later[j].key.Some? && KeyAt(later, j) == q;
        assert node[j].key.Some? && KeyAt(node, j) == q;
      }
      if q in AllKeys(node) {
        var j :| 0 <= j < |node| && node[j].key.Some? && KeyAt(node, j) == q;
        assert later[j].key.Some? && KeyAt(later, j) == q;
      }
    }
  }

  lemma StoreValues(arr: seq<Value>, node: seq<Node>, i: nat, v: Value)
    requires KeysOk(|arr|, node) && Keyed(node, i) && KeysOk(|arr|, node[i := node[i].(val := v)])
    ensures forall q :: ValueOf(arr, node[i := node[i].(val := v)], q) ==
              if q == node[i].key.value then v else ValueOf(arr, node, q)
  {
    var later := node[i := node[i].(val := v)];
    forall q | !InArray(|arr|, q) ensures ValueOf(arr, later, q) == if q == node[i].key.value then v else ValueOf(arr, node, q) {
      if HasNode(node, q) {
        var j := NodeOf(node, q);
        assert later[j].key == Some(q);
        NodeUnique(|arr|, later, q, j);
      }
      if HasNode(later, q) {
        var j := NodeOf(later, q);
        assert node[j].key == Some(q);
        NodeUnique(|arr|, node, q, j);
      }
      if q == node[i].key.value { NodeUnique(|arr|, node, q, i); NodeUnique(|arr|, later, q, i); }
    }
    assert !InArray(|arr|, node[i].key.value);
  }

  // ---- Rehash -------------------------------------------------------------

  /** Everything that has to find a place, with the new key. */
  ghost function WithKey(arr: seq<Value>, node: seq<Node>, k: Key): set<Key> {
    LiveKeys(arr, node) + {k}
  }

  /** The keys in use that will not be in the array part. */
  ghost function HashBound(arr: seq<Value>, node: seq<Node>, n: nat): set<Key> {
    set q | q in LiveKeys(arr, node) && !InArray(n, q)
  }

  lemma UsedKeyed(node: seq<Node>)
    requires Single(node)
    ensures forall i {:trigger node[i].val} :: 0 <= i < |node| && node[i].val != Nil ==> node[i].key.Some?
  {
    forall i | 0 <= i < |node| && node[i].val != Nil ensures node[i].key.Some? {
      if node[i].key.None? { UnusedEmpty(node, i); }
    }
  }

  lemma UnusedEmpty(node: seq<Node>, i: int)
    requires Single(node) && 0 <= i < |node| && node[i].key.None?
    ensures node[i] == EMPTY
  {}

  lemma ArrValues(arr: seq<Value>, node: seq<Node>, i: nat, v: Value)
    requires i < |arr|
    ensures forall q :: ValueOf(arr[i := v], node, q) == if q == Int(i + 1) then v else ValueOf(arr, node, q)
  {
    forall q ensures ValueOf(arr[i := v], node, q) == if q == Int(i + 1) then v else ValueOf(arr, node, q) {
      if InArray(|arr|, q) { assert q == Int(i + 1) <==> q.n - 1 == i; }
    }
  }

  lemma UsedMore(node: seq<Node>, l: nat)
    requires LastFree(node, l + 1) && node[l].key.Some?
    ensures LastFree(node, l)
  {
    forall i | l <= i < |node| ensures Keyed(node, i) { if i > l { assert node[i].key == node[i].key; } }
  }

  /** An empty hash part, and the array part grown or cut. */
  lemma ResizeStart(arr: seq<Value>, node: seq<Node>, later: seq<Value>, empty: seq<Node>)
    requires forall i :: 0 <= i < |empty| ==> empty[i] == EMPTY
    requires forall i :: 0 <= i < |later| ==> later[i] == if i < |arr| then arr[i] else Nil
    ensures forall q :: ValueOf(later, empty, q) == if InArray(Least(|arr|, |later|), q) then ValueOf(arr, node, q) else Nil
  {}

  lemma ArrSlotValue(arr: seq<Value>, node: seq<Node>, i: nat)
    requires i < |arr|
    ensures ValueOf(arr, node, Int(i + 1)) == arr[i]
  {}

  /** Whatever is neither in the array part nor in a node has no value. */
  lemma NoValue(arr: seq<Value>, node: seq<Node>)
    ensures forall q :: ValueOf(arr, node, q) == if InArray(|arr|, q) || FromNode(node, 0, q) then ValueOf(arr, node, q) else Nil
  {
    forall q | HasNode(node, q) ensures FromNode(node, 0, q) {}
  }

  lemma KeysApart(arr: seq<Value>, node: seq<Node>, k: Key)
    requires Single(node) && KeysOk(|arr|, node) && !HasNode(node, k) && !InArray(|arr|, k)
    ensures ArrKeys(arr, |arr|) !! NodeKeys(node, 0) && k !in LiveKeys(arr, node)
  {
    UsedKeyed(node);
    forall i | 0 <= i < |node| && node[i].val != Nil ensures !InArray(|arr|, KeyAt(node, i)) && KeyAt(node, i) != k {
      assert node[i].key.Some? && Keyed(node, i);
    }
  }

  lemma SliceJoin(a: set<Key>, b: set<Key>, l: nat)
    requires a !! b
    ensures |Slice(a + b, l)| == |Slice(a, l)| + |Slice(b, l)|
  {
    assert Slice(a + b, l) == Slice(a, l) + Slice(b, l);
  }

  lemma CandidatesJoin(a: set<Key>, b: set<Key>)
    requires a !! b
    ensures |Candidates(a + b)| == |Candidates(a)| + |Candidates(b)|
  {
    assert Candidates(a + b) == Candidates(a) + Candidates(b);
  }

  lemma ArrCandidates(arr: seq<Value>)
    requires |arr| <= Pow2(MAXBITS)
    ensures Candidates(ArrKeys(arr, |arr|)) == ArrKeys(arr, |arr|)
  {
    hide Pow2;
  }

  /** The counts of `rehash`. */
  lemma RehashCounts(arr: seq<Value>, node: seq<Node>, k: Key)
    requires Single(node) && KeysOk(|arr|, node) && !HasNode(node, k) && !InArray(|arr|, k) && |arr| <= Pow2(MAXBITS)
    ensures var a, b := ArrKeys(arr, |arr|), NodeKeys(node, 0); var keys := WithKey(arr, node, k);
            && |keys| == |a| + |b| + 1
            && |Candidates(keys)| == |a| + |Candidates(b)| + (if InArray(Pow2(MAXBITS), k) then 1 else 0)
            && forall l: nat :: |Slice(keys, l)| == |Slice(a, l)| + |Slice(b, l)| + (if k.Int? && InSlice(k.n, l) then 1 else 0)
  {
    hide ArrKeys, NodeKeys, Slice, UpTo, Pow2;
    KeysApart(arr, node, k);
    ArrCandidates(arr);
    var a, b := ArrKeys(arr, |arr|), NodeKeys(node, 0);
    CandidatesJoin(a, b);
    CandidatesAdd(a + b, k);
    forall l: nat ensures |Slice(WithKey(arr, node, k), l)| == |Slice(a, l)| + |Slice(b, l)| + (if k.Int? && InSlice(k.n, l) then 1 else 0) {
      SliceJoin(a, b, l);
      SliceAdd(a + b, k, l);
    }
  }

  /** The new hash part has a node for every key that goes there, the new one
      included. */
  lemma RoomForAll(arr: seq<Value>, node: seq<Node>, k: Key, n: nat, na: nat)
    requires k !in LiveKeys(arr, node) && na == |set q | q in WithKey(arr, node, k) && InArray(n, q)|
    ensures |HashBound(arr, node, n)| + (if InArray(n, k) then 0 else 1) + na == |WithKey(arr, node, k)|
  {
    hide LiveKeys;
    var keys := WithKey(arr, node, k);
    var inside := set q | q in keys && InArray(n, q);
    var rest := HashBound(arr, node, n);
    assert keys == inside + rest + (if InArray(n, k) then {} else {k});
    assert inside !! rest;
  }

  /** The keys that are not in an array part of size `n`. */
  ghost function Outside(keys: set<Key>, n: nat): set<Key> {
    set q | q in keys && !InArray(n, q)
  }

  lemma OutsideCount(keys: set<Key>, n: nat, na: nat)
    requires na == |set q | q in keys && InArray(n, q)|
    ensures |Outside(keys, n)| == |keys| - na
  {
    var inside := set q | q in keys && InArray(n, q);
    assert keys == inside + Outside(keys, n) && inside !! Outside(keys, n);
  }

  /** A key with a value is in use. */
  lemma UsedLive(arr: seq<Value>, node: seq<Node>, q: Key)
    requires ValueOf(arr, node, q) != Nil
    ensures q in LiveKeys(arr, node)
  {
    if InArray(|arr|, q) {
      assert arr[q.n - 1] != Nil;
    } else {
      var i := NodeOf(node, q);
      assert node[i].val != Nil && KeyAt(node, i) == q;
    }
  }

  predicate FromNode(node: seq<Node>, j: nat, q: Key) {
    exists i :: j <= i < |node| && node[i].key == Some(q)
  }

  lemma FromNodeStep(node: seq<Node>, j: nat, q: Key)
    requires j < |node|
    ensures FromNode(node, j, q) <==> FromNode(node, j + 1, q) || node[j].key == Some(q)
  {
    if node[j].key == Some(q) { assert FromNode(node, j, q); }
  }
}
