/** The representation of tables (`ltable.c`): an array part, and nodes chained
    from the main position of their keys. */
module TableCore {

  datatype Option<+T> = None | Some(value: T)

  /** Keys.  `NilKey` and `NaN` are what a program may try but no table holds. */
  datatype Key = NilKey | NaN | Int(n: int) | Real(id: nat) | Str(id: nat) | Bool(b: bool) | Object(id: nat)

  datatype Value = Nil | Val(v: int)

  /** `next` is an index, or -1 at the end of a chain. */
  datatype Node = Node(key: Option<Key>, val: Value, next: int)

  const EMPTY := Node(None, Nil, -1)

  type Hash = Key -> nat

  /** `mainposition`: sizes are powers of two; numbers and objects avoid them. */
  function Main(h: Hash, size: nat, k: Key): (i: nat)
    requires size > 0
    ensures i < size
  {
    if k == Int(0) then 0
    else if k.Str? || k.Bool? then h(k) % size
    else h(k) % (if size == 1 then 1 else size - 1)
  }

  predicate InArray(asize: nat, k: Key) {
    k.Int? && 1 <= k.n <= asize
  }

  predicate Keyed(node: seq<Node>, i: int) {
    0 <= i < |node| && node[i].key.Some?
  }

  // ---- The invariant ------------------------------------------------------

  /** `tail[i]` is the chain from node `i` on. */
  ghost predicate TailAt(node: seq<Node>, tail: seq<seq<nat>>, i: nat)
    requires i < |node| == |tail|
  {
    && -1 <= node[i].next < |node|
    && tail[i] == [i] + (if node[i].next == -1 then [] else tail[node[i].next])
  }

  ghost predicate Linked(node: seq<Node>, tail: seq<seq<nat>>) {
    |tail| == |node| && forall i {:trigger TailAt(node, tail, i)} :: 0 <= i < |node| ==> TailAt(node, tail, i)
  }

  /** No node follows two others, and unused nodes are in no chain. */
  ghost predicate Single(node: seq<Node>) {
    && (forall i, j {:trigger node[i].next, node[j].next} :: 0 <= i < j < |node| && node[i].next == node[j].next ==> node[i].next == -1)
    && (forall i {:trigger node[i].key} :: 0 <= i < |node| && node[i].key.None? ==> node[i] == EMPTY)
    && forall i {:trigger node[i].next} :: 0 <= i < |node| && node[i].next != -1 ==> Keyed(node, node[i].next)
  }

  /** Every key is in the chain of its main position; where it is not there
      itself, there is a key that is in its own. */
  ghost predicate Placed(h: Hash, node: seq<Node>, tail: seq<seq<nat>>)
    requires |tail| == |node|
  {
    forall i {:trigger node[i].key} :: Keyed(node, i) ==>
      var m := Main(h, |node|, node[i].key.value);
      i in tail[m] && Keyed(node, m) && Main(h, |node|, node[m].key.value) == m
  }

  ghost predicate KeysOk(asize: nat, node: seq<Node>) {
    && (forall i, j {:trigger node[i].key, node[j].key} :: 0 <= i < j < |node| && Keyed(node, i) ==> node[i].key != node[j].key)
    && forall i {:trigger node[i].key} :: Keyed(node, i) ==>
         var k := node[i].key.value; !InArray(asize, k) && !k.NilKey? && !k.NaN?
  }

  ghost predicate LastFree(node: seq<Node>, lastfree: nat) {
    lastfree <= |node| && forall i {:trigger node[i].key} :: lastfree <= i < |node| ==> Keyed(node, i)
  }

  ghost predicate Sound(h: Hash, asize: nat, node: seq<Node>, tail: seq<seq<nat>>) {
    match node case _ =>
    |node| > 0 && Linked(node, tail) && Single(node) && Placed(h, node, tail) && KeysOk(asize, node)
  }

  // ---- Values -------------------------------------------------------------

  predicate HasNode(node: seq<Node>, k: Key) {
    exists i :: 0 <= i < |node| && node[i].key == Some(k)
  }

  ghost function NodeOf(node: seq<Node>, k: Key): (i: nat)
    requires HasNode(node, k)
    ensures i < |node| && node[i].key == Some(k)
  {
    var i :| 0 <= i < |node| && node[i].key == Some(k);
    i
  }

  /** The value of a key: nil when it is not there. */
  ghost function ValueOf(arr: seq<Value>, node: seq<Node>, k: Key): Value {
    if InArray(|arr|, k) then arr[k.n - 1]
    else if HasNode(node, k) then node[NodeOf(node, k)].val
    else Nil
  }

  lemma NodeUnique(asize: nat, node: seq<Node>, k: Key, i: nat)
    requires KeysOk(asize, node) && i < |node| && node[i].key == Some(k)
    ensures HasNode(node, k) && NodeOf(node, k) == i
  {
    assert HasNode(node, k);
    assert node[NodeOf(node, k)].key == node[i].key;
  }

  // ---- Chains -------------------------------------------------------------

  /** A chain never comes back to a node. */
  lemma {:induction false} TailShorter(node: seq<Node>, tail: seq<seq<nat>>, i: nat, j: nat)
    requires Linked(node, tail) && i < |node| && j in tail[i]
    ensures j < |node| && |tail[j]| <= |tail[i]|
    decreases |tail[i]|
  {
    assert TailAt(node, tail, i);
    if j != i { TailShorter(node, tail, node[i].next, j); }
  }

  lemma NotOwnTail(node: seq<Node>, tail: seq<seq<nat>>, i: nat)
    requires Linked(node, tail) && i < |node|
    ensures TailAt(node, tail, i) && (node[i].next != -1 ==> i !in tail[node[i].next])
  {
    assert TailAt(node, tail, i);
    if node[i].next != -1 && i in tail[node[i].next] { TailShorter(node, tail, node[i].next, i); }
  }

  lemma TailHead(node: seq<Node>, tail: seq<seq<nat>>, i: nat)
    requires Linked(node, tail) && i < |node|
    ensures |tail| == |node| && i in tail[i] && tail[i] != [] && tail[i][0] == i
  {
    assert TailAt(node, tail, i);
  }

  /** What follows a member of a chain is in the chain. */
  lemma {:induction false} TailNext(node: seq<Node>, tail: seq<seq<nat>>, i: nat, j: nat)
    requires Linked(node, tail) && i < |node| && j in tail[i]
    ensures j < |node| && (node[j].next != -1 ==> 0 <= node[j].next < |node| && node[j].next in tail[i])
    decreases |tail[i]|
  {
    assert TailAt(node, tail, i);
    if node[i].next != -1 {
      TailHead(node, tail, node[i].next);
      if j != i { TailNext(node, tail, node[i].next, j); }
    }
  }

  // ---- A new key in a free node -------------------------------------------

  /** The new key is in its main position, which was free. */
  lemma PlaceFree(h: Hash, asize: nat, node: seq<Node>, tail: seq<seq<nat>>, k: Key)
    requires Sound(h, asize, node, tail) && !HasNode(node, k) && !InArray(asize, k) && !k.NilKey? && !k.NaN?
    requires var m := Main(h, |node|, k); node[m].val == Nil
    ensures var m := Main(h, |node|, k); var node1 := node[m := node[m].(key := Some(k))];
            Sound(h, asize, node1, tail)
  {
    hide Main, Linked;
    var m := Main(h, |node|, k);
    var node1 := node[m := node[m].(key := Some(k))];
    PlaceFreeLinked(node, tail, k, m);
    PlaceFreeSingle(h, asize, node, tail, k);
    PlaceFreeKeys(asize, node, k, m);
    TailHead(node, tail, m);
    hide Single, KeysOk, HasNode;
    forall i | Keyed(node1, i)
      ensures var q := Main(h, |node1|, node1[i].key.value);
              i in tail[q] && Keyed(node1, q) && Main(h, |node1|, node1[q].key.value) == q
    {
      if i != m {
        assert node1[i].key == node[i].key;
        var q := Main(h, |node|, node[i].key.value);
        assert node1[q].key == if q == m then Some(k) else node[q].key;
      }
    }
  }

  lemma PlaceFreeLinked(node: seq<Node>, tail: seq<seq<nat>>, k: Key, m: nat)
    requires Linked(node, tail) && m < |node|
    ensures Linked(node[m := node[m].(key := Some(k))], tail)
  {
    var node1 := node[m := node[m].(key := Some(k))];
    forall i | 0 <= i < |node1| ensures TailAt(node1, tail, i) { assert TailAt(node, tail, i); }
  }

  lemma PlaceFreeKeys(asize: nat, node: seq<Node>, k: Key, m: nat)
    requires KeysOk(asize, node) && m < |node| && !HasNode(node, k) && !InArray(asize, k) && !k.NilKey? && !k.NaN?
    ensures KeysOk(asize, node[m := node[m].(key := Some(k))])
  {
    var node1 := node[m := node[m].(key := Some(k))];
    forall i, j | 0 <= i < j < |node1| && Keyed(node1, i) ensures node1[i].key != node1[j].key {
      assert node[i].key != Some(k) && node[j].key != Some(k);
    }
  }

  lemma PlaceFreeSingle(h: Hash, asize: nat, node: seq<Node>, tail: seq<seq<nat>>, k: Key)
    requires Single(node) && |node| > 0
    ensures var m := Main(h, |node|, k); Single(node[m := node[m].(key := Some(k))])
  {
    hide Main;
    var m := Main(h, |node|, k);
    var node1 := node[m := node[m].(key := Some(k))];
    assert forall i :: 0 <= i < |node1| ==> node1[i].next == node[i].next;
  }

  // ---- A new key in a free node behind its main position ------------------

  function InsertAfter(l: seq<nat>, m: nat, n: nat): seq<nat> {
    if l == [] then [] else if l[0] == m then [m, n] + l[1..] else [l[0]] + InsertAfter(l[1..], m, n)
  }

  lemma {:induction false} InsertMembers(l: seq<nat>, m: nat, n: nat)
    ensures forall j :: j in l ==> j in InsertAfter(l, m, n)
    ensures m in l ==> n in InsertAfter(l, m, n)
    ensures m !in l ==> InsertAfter(l, m, n) == l
  {
    if l != [] {
      assert l == [l[0]] + l[1..];
      InsertMembers(l[1..], m, n);
    }
  }

  /** The node `n` joins the chain of `m`, right behind it. */
  function Behind(node: seq<Node>, m: nat, n: nat, k: Key): seq<Node>
    requires m < |node| && n < |node|
  {
    node[n := Node(Some(k), Nil, node[m].next)][m := node[m].(next := n)]
  }

  lemma PlaceBehind(h: Hash, asize: nat, node: seq<Node>, tail: seq<seq<nat>>, k: Key, n: nat)
    requires Sound(h, asize, node, tail) && !HasNode(node, k) && !InArray(asize, k) && !k.NilKey? && !k.NaN?
    requires n < |node| && node[n].key.None?
    requires var m := Main(h, |node|, k); Keyed(node, m) && Main(h, |node|, node[m].key.value) == m
    ensures var m := Main(h, |node|, k);
            |tail[m]| > 0 && Sound(h, asize, Behind(node, m, n, k), TailsBehind(tail, m, n))
  {
    hide Main, Linked;
    var m := Main(h, |node|, k);
    var node1 := Behind(node, m, n, k);
    TailHead(node, tail, m);
    BehindLinked(node, tail, m, n, k);
    var tail1 := TailsBehind(tail, m, n);
    BehindSingle(node, tail, m, n, k);
    BehindKeys(asize, node, m, n, k);
    TailHead(node, tail, m);
    hide Single, KeysOk;
    forall i | Keyed(node1, i)
      ensures var q := Main(h, |node1|, node1[i].key.value);
              i in tail1[q] && Keyed(node1, q) && Main(h, |node1|, node1[q].key.value) == q
    {
      var i0 := if i == n then m else i;
      assert node1[m].key == node[m].key;
      if i != n { assert node1[i].key == node[i].key; }
      var q := Main(h, |node1|, node1[i].key.value);
      assert q != n;
      assert node1[q].key == node[q].key;
      assert i0 in tail[q];
      InsertMembers(tail[q], m, n);
    }
  }

  function TailsBehind(tail: seq<seq<nat>>, m: nat, n: nat): (r: seq<seq<nat>>)
    requires m < |tail| && |tail[m]| > 0
    ensures |r| == |tail|
  {
    seq(|tail|, i requires 0 <= i < |tail| => if i == n then [n] + tail[m][1..] else InsertAfter(tail[i], m, n))
  }

  lemma BehindLinked(node: seq<Node>, tail: seq<seq<nat>>, m: nat, n: nat, k: Key)
    requires Linked(node, tail) && Single(node) && n < |node| && node[n].key.None? && Keyed(node, m)
    ensures |tail[m]| > 0 && Linked(Behind(node, m, n, k), TailsBehind(tail, m, n))
  {
    hide Single;
    TailHead(node, tail, m);
    NotOwnTail(node, tail, m);
    forall i | 0 <= i < |node| ensures TailAt(Behind(node, m, n, k), TailsBehind(tail, m, n), i) {
      assert TailAt(node, tail, i);
      NextUsed(node, i, n);
      NextUsed(node, m, n);
      hide Linked;
      BehindTail(node, tail, m, n, k, i);
    }
  }

  /** An unused node follows no other. */
  lemma NextUsed(node: seq<Node>, i: nat, n: nat)
    requires Single(node) && i < |node| && n < |node| && node[n].key.None?
    ensures node[i].next != n && node[n] == EMPTY
  {}

  lemma BehindTail(node: seq<Node>, tail: seq<seq<nat>>, m: nat, n: nat, k: Key, i: nat)
    requires i < |node| == |tail| && m < |node| && n < |node| && m != n
    requires TailAt(node, tail, i) && TailAt(node, tail, m) && node[n].next == -1
    requires node[i].next != n && node[m].next != n && (node[m].next != -1 ==> m !in tail[node[m].next])
    ensures TailAt(Behind(node, m, n, k), TailsBehind(tail, m, n), i)
  {
    if i == m { BehindTailMain(node, tail, m, n, k); }
    else if i == n { BehindTailNew(node, tail, m, n, k); }
    else { BehindTailOther(node, tail, m, n, k, i); }
  }

  lemma BehindTailMain(node: seq<Node>, tail: seq<seq<nat>>, m: nat, n: nat, k: Key)
    requires |node| == |tail| && m < |node| && n < |node| && m != n && TailAt(node, tail, m)
    ensures TailAt(Behind(node, m, n, k), TailsBehind(tail, m, n), m)
  {
    var node1, tail1 := Behind(node, m, n, k), TailsBehind(tail, m, n);
    assert node1[m].next == n;
    assert tail1[m] == InsertAfter(tail[m], m, n) == [m, n] + tail[m][1..];
    assert tail1[n] == [n] + tail[m][1..];
  }

  lemma BehindTailNew(node: seq<Node>, tail: seq<seq<nat>>, m: nat, n: nat, k: Key)
    requires |node| == |tail| && m < |node| && n < |node| && m != n && TailAt(node, tail, m)
    requires node[m].next != n && (node[m].next != -1 ==> m !in tail[node[m].next])
    ensures TailAt(Behind(node, m, n, k), TailsBehind(tail, m, n), n)
  {
    var node1, tail1 := Behind(node, m, n, k), TailsBehind(tail, m, n);
    var y := node[m].next;
    assert node1[n].next == y;
    assert tail1[n] == [n] + tail[m][1..];
    assert tail[m][1..] == if y == -1 then [] else tail[y];
    if y != -1 {
      InsertMembers(tail[y], m, n);
      assert tail1[y] == InsertAfter(tail[y], m, n);
    }
  }

  lemma BehindTailOther(node: seq<Node>, tail: seq<seq<nat>>, m: nat, n: nat, k: Key, i: nat)
    requires i < |node| == |tail| && m < |node| && n < |node| && m != n && i != m && i != n
    requires TailAt(node, tail, i) && TailAt(node, tail, m) && node[i].next != n
    ensures TailAt(Behind(node, m, n, k), TailsBehind(tail, m, n), i)
  {
    var node1, tail1 := Behind(node, m, n, k), TailsBehind(tail, m, n);
    var x := node[i].next;
    assert node1[i].next == x;
    assert tail[i][1..] == if x == -1 then [] else tail[x];
    assert tail1[i] == InsertAfter(tail[i], m, n) == [i] + InsertAfter(tail[i][1..], m, n);
    if x != -1 { assert tail1[x] == InsertAfter(tail[x], m, n); }
  }

  lemma BehindSingle(node: seq<Node>, tail: seq<seq<nat>>, m: nat, n: nat, k: Key)
    requires Single(node) && n < |node| && node[n].key.None? && Keyed(node, m)
    requires Linked(node, tail)
    ensures Single(Behind(node, m, n, k))
  {
    var node1 := Behind(node, m, n, k);
    assert node[n] == EMPTY;
    forall i, j | 0 <= i < j < |node1| && node1[i].next == node1[j].next ensures node1[i].next == -1 {
      if i != m && i != n { assert node1[i].next == node[i].next; }
      if j != m && j != n { assert node1[j].next == node[j].next; }
    }
    forall i | 0 <= i < |node1| && node1[i].next != -1 ensures Keyed(node1, node1[i].next) {
      if i != m && i != n { assert node1[i].next == node[i].next; }
    }
  }

  lemma BehindKeys(asize: nat, node: seq<Node>, m: nat, n: nat, k: Key)
    requires KeysOk(asize, node) && n < |node| && node[n].key.None? && Keyed(node, m)
    requires !HasNode(node, k) && !InArray(asize, k) && !k.NilKey? && !k.NaN?
    ensures KeysOk(asize, Behind(node, m, n, k))
  {
    var node1 := Behind(node, m, n, k);
    forall i, j | 0 <= i < j < |node1| && Keyed(node1, i) ensures node1[i].key != node1[j].key {
      if i != n { assert node1[i].key == node[i].key != Some(k); }
      if j != n { assert node1[j].key == node[j].key != Some(k); }
    }
    forall i | Keyed(node1, i) ensures var q := node1[i].key.value; !InArray(asize, q) && !q.NilKey? && !q.NaN? {
      if i != n { assert node1[i].key == node[i].key; }
    }
  }

  // ---- A new key drives another one out of its main position --------------

  function Replaced(l: seq<nat>, m: nat, n: nat): seq<nat> {
    if l == [] then [] else [if l[0] == m then n else l[0]] + Replaced(l[1..], m, n)
  }

  lemma {:induction false} ReplacedMembers(l: seq<nat>, m: nat, n: nat)
    ensures forall j :: j in l && j != m ==> j in Replaced(l, m, n)
    ensures m in l ==> n in Replaced(l, m, n)
    ensures m !in l ==> Replaced(l, m, n) == l
  {
    if l != [] {
      assert l == [l[0]] + l[1..];
      ReplacedMembers(l[1..], m, n);
    }
  }

  /** The node at `m` has moved to `n`; `p` came before it. */
  function Moved(node: seq<Node>, m: nat, n: nat, p: nat, k: Key): seq<Node>
    requires m < |node| && n < |node| && p < |node|
  {
    node[p := node[p].(next := n)][n := node[m]][m := Node(Some(k), Nil, -1)]
  }

  lemma PlaceMoved(h: Hash, asize: nat, node: seq<Node>, tail: seq<seq<nat>>, k: Key, n: nat, p: nat)
    requires Sound(h, asize, node, tail) && !HasNode(node, k) && !InArray(asize, k) && !k.NilKey? && !k.NaN?
    requires n < |node| && node[n].key.None?
    requires var m := Main(h, |node|, k); Keyed(node, m) && Main(h, |node|, node[m].key.value) != m && p < |node| && node[p].next == m
    ensures var m := Main(h, |node|, k);
            |tail[m]| > 0 && p != m && p != n && Sound(h, asize, Moved(node, m, n, p, k), TailsMoved(tail, m, n))
  {
    hide Main, Linked;
    var m := Main(h, |node|, k);
    var node1 := Moved(node, m, n, p, k);
    TailHead(node, tail, m);
    MovedLinked(node, tail, m, n, p, k);
    MovedSingle(node, tail, m, n, p, k);
    MovedKeys(asize, node, m, n, p, k);
    hide KeysOk;
    forall i | Keyed(node1, i)
      ensures var q := Main(h, |node1|, node1[i].key.value);
              i in TailsMoved(tail, m, n)[q] && Keyed(node1, q) && Main(h, |node1|, node1[q].key.value) == q
    {
      MovedPlace(h, node, tail, m, n, p, k, i);
    }
  }

  function TailsMoved(tail: seq<seq<nat>>, m: nat, n: nat): (r: seq<seq<nat>>)
    requires m < |tail| && |tail[m]| > 0
    ensures |r| == |tail|
  {
    seq(|tail|, i requires 0 <= i < |tail| => if i == n then [n] + tail[m][1..] else if i == m then [m] else Replaced(tail[i], m, n))
  }

  /** Where a key is found after the move. */
  lemma MovedPlace(h: Hash, node: seq<Node>, tail: seq<seq<nat>>, m: nat, n: nat, p: nat, k: Key, i: nat)
    requires Linked(node, tail) && Single(node) && Placed(h, node, tail) && |node| > 0
    requires m == Main(h, |node|, k) && Keyed(node, m) && Main(h, |node|, node[m].key.value) != m
    requires n < |node| && node[n].key.None? && p < |node| && node[p].next == m
    requires Keyed(Moved(node, m, n, p, k), i)
    ensures var node1 := Moved(node, m, n, p, k);
            var q := Main(h, |node1|, node1[i].key.value);
            && Keyed(node1, q) && Main(h, |node1|, node1[q].key.value) == q
            && |tail[m]| > 0 && i in TailsMoved(tail, m, n)[q]
  {
    hide Main;
    var node1 := Moved(node, m, n, p, k);
    TailHead(node, tail, m);
    hide Linked, Single;
    if i != m {
      var j := if i == n then m else i;
      assert node1[i].key == node[j].key;
      var q := Main(h, |node|, node[j].key.value);
      assert j in tail[q] && Keyed(node, q) && Main(h, |node|, node[q].key.value) == q;
      assert q != m && q != n;
      assert node1[q].key == node[q].key;
      ReplacedMembers(tail[q], m, n);
    }
  }

  lemma MovedLinked(node: seq<Node>, tail: seq<seq<nat>>, m: nat, n: nat, p: nat, k: Key)
    requires Linked(node, tail) && Single(node) && n < |node| && node[n].key.None? && Keyed(node, m) && p < |node| && node[p].next == m
    ensures |tail[m]| > 0 && p != m && p != n && Linked(Moved(node, m, n, p, k), TailsMoved(tail, m, n))
  {
    TailHead(node, tail, m);
    NotOwnTail(node, tail, p);
    NotOwnTail(node, tail, m);
    NextUsed(node, m, n);
    forall i | 0 <= i < |node| ensures TailAt(Moved(node, m, n, p, k), TailsMoved(tail, m, n), i) {
      assert TailAt(node, tail, i) && TailAt(node, tail, p);
      NextUsed(node, i, n);
      OnePredecessor(node, i, p, m);
      hide Linked, Single;
      MovedTail(node, tail, m, n, p, k, i);
    }
  }

  lemma OneNext(node: seq<Node>, i: nat, j: nat)
    requires Single(node) && i < j < |node| && node[i].next == node[j].next
    ensures node[i].next == -1
  {}

  lemma OnePredecessor(node: seq<Node>, i: nat, p: nat, m: nat)
    requires Single(node) && i < |node| && p < |node| && node[p].next == m
    ensures node[i].next == m ==> i == p
  {
    if node[i].next == m && i < p { OneNext(node, i, p); }
    if node[i].next == m && p < i { OneNext(node, p, i); }
  }

  lemma MovedTail(node: seq<Node>, tail: seq<seq<nat>>, m: nat, n: nat, p: nat, k: Key, i: nat)
    requires i < |node| == |tail| && m < |node| && n < |node| && p < |node| && m != n && p != m && p != n
    requires TailAt(node, tail, i) && TailAt(node, tail, m) && TailAt(node, tail, p) && node[n].next == -1 && node[p].next == m
    requires node[i].next != n && node[m].next != n && (node[i].next == m ==> i == p) && (node[m].next != -1 ==> m !in tail[node[m].next])
    ensures TailAt(Moved(node, m, n, p, k), TailsMoved(tail, m, n), i)
  {
    var node1, tail1 := Moved(node, m, n, p, k), TailsMoved(tail, m, n);
    if i == m {
      assert node1[m].next == -1 && tail1[m] == [m];
    } else if i == n {
      MovedTailNew(node, tail, m, n, p, k);
    } else {
      MovedTailOther(node, tail, m, n, p, k, i);
    }
  }

  lemma MovedTailNew(node: seq<Node>, tail: seq<seq<nat>>, m: nat, n: nat, p: nat, k: Key)
    requires |node| == |tail| && m < |node| && n < |node| && p < |node| && m != n && p != m && p != n && TailAt(node, tail, m)
    requires node[m].next != n && (node[m].next != -1 ==> m !in tail[node[m].next])
    ensures TailAt(Moved(node, m, n, p, k), TailsMoved(tail, m, n), n)
  {
    var node1, tail1 := Moved(node, m, n, p, k), TailsMoved(tail, m, n);
    var y := node[m].next;
    assert node1[n].next == y;
    assert tail1[n] == [n] + tail[m][1..];
    assert tail[m][1..] == if y == -1 then [] else tail[y];
    if y != -1 {
      assert y != m by { assert tail[m] == [m] + tail[y]; }
      ReplacedMembers(tail[y], m, n);
      assert tail1[y] == Replaced(tail[y], m, n);
    }
  }

  lemma MovedTailOther(node: seq<Node>, tail: seq<seq<nat>>, m: nat, n: nat, p: nat, k: Key, i: nat)
    requires i < |node| == |tail| && m < |node| && n < |node| && p < |node| && m != n && p != m && p != n && i != m && i != n
    requires TailAt(node, tail, i) && TailAt(node, tail, m) && node[p].next == m
    requires node[i].next != n && (node[i].next == m ==> i == p) && (node[m].next != -1 ==> m !in tail[node[m].next])
    ensures TailAt(Moved(node, m, n, p, k), TailsMoved(tail, m, n), i)
  {
    var node1, tail1 := Moved(node, m, n, p, k), TailsMoved(tail, m, n);
    var x := node[i].next;
    assert node1[i].next == if i == p then n else x;
    assert tail[i][1..] == if x == -1 then [] else tail[x];
    assert tail1[i] == Replaced(tail[i], m, n) == [i] + Replaced(tail[i][1..], m, n);
    if i == p {
      var y := node[m].next;
      if y != -1 { ReplacedMembers(tail[y], m, n); }
      assert tail[m][1..] == if y == -1 then [] else tail[y];
      assert Replaced(tail[m], m, n) == [n] + Replaced(tail[m][1..], m, n);
      assert tail1[n] == [n] + tail[m][1..];
    } else if x != -1 {
      assert tail1[x] == Replaced(tail[x], m, n);
    }
  }

  lemma MovedSingle(node: seq<Node>, tail: seq<seq<nat>>, m: nat, n: nat, p: nat, k: Key)
    requires Single(node) && n < |node| && node[n].key.None? && Keyed(node, m) && p < |node| && node[p].next == m && p != m
    requires Linked(node, tail)
    ensures Single(Moved(node, m, n, p, k))
  {
    var node1 := Moved(node, m, n, p, k);
    assert node[n] == EMPTY && p != n;
    forall i, j | 0 <= i < j < |node1| && node1[i].next == node1[j].next ensures node1[i].next == -1 {
      if i != m && i != n && i != p { assert node1[i].next == node[i].next; }
      if j != m && j != n && j != p { assert node1[j].next == node[j].next; }
      assert node1[n].next == node[m].next;
    }
    forall i | 0 <= i < |node1| && node1[i].next != -1 ensures Keyed(node1, node1[i].next) {
      if i != m && i != n && i != p { assert node1[i].next == node[i].next; }
      assert node1[n].next == node[m].next;
    }
  }

  lemma MovedKeys(asize: nat, node: seq<Node>, m: nat, n: nat, p: nat, k: Key)
    requires KeysOk(asize, node) && n < |node| && node[n].key.None? && Keyed(node, m) && p < |node| && p != m && p != n
    requires !HasNode(node, k) && !InArray(asize, k) && !k.NilKey? && !k.NaN?
    ensures KeysOk(asize, Moved(node, m, n, p, k))
  {
    var node1 := Moved(node, m, n, p, k);
    forall i, j | 0 <= i < j < |node1| && Keyed(node1, i) ensures node1[i].key != node1[j].key {
      var i0, j0 := if i == n then m else i, if j == n then m else j;
      if i != m { assert node1[i].key == node[i0].key != Some(k); }
      if j != m { assert node1[j].key == node[j0].key != Some(k); }
      if i != m && j != m {
        if i0 < j0 { assert node[i0].key != node[j0].key; } else { assert node[j0].key != node[i0].key; }
      }
    }
    forall i | Keyed(node1, i) ensures var q := node1[i].key.value; !InArray(asize, q) && !q.NilKey? && !q.NaN? {
      if i != m { assert node1[i].key == node[if i == n then m else i].key; }
    }
  }
}
