/** The collector as it runs: fields updated in place by loops, every method
    tied to the functions the theorems are about. */
module GcCollector {
  import opened GcHeap
  import opened GcMark
  import opened GcPropagate
  import opened GcAtomic
  import opened GcInvariant
  import opened GcBarrier
  import opened GcClose
  import opened GcSweep
  import opened GcSweepInv
  import opened GcStrings
  import opened GcMutator
  import opened GcWrites
  import opened GcCapture
  import opened GcFixed
  import opened GcMachine
  import opened GcSafety
  import opened GcFull
  import opened GcExact
  import StringHash

  class Collector {
    var objs: map<Ref, Obj>
    var mark: map<Ref, Mark>
    var gray: seq<Ref>
    var grayagain: seq<Ref>
    var weak: seq<Ref>
    var currentwhite: bool
    var gcstate: Phase
    var swept: seq<Ref>
    var rest: seq<Ref>
    var strt: seq<seq<Ref>>
    var nuse: int
    var sweepstrgc: nat
    var uvhead: seq<Ref>
    var mainthread: Ref
    var running: Ref
    var registry: Value
    var mts: seq<Option<Ref>>
    var tmp: set<Ref>

    ghost function View(): State
      reads this
    {
      State(objs, mark, gray, grayagain, weak,
            Global(currentwhite, gcstate, swept, rest, strt, nuse, sweepstrgc, uvhead,
                   mainthread, running, registry, mts, tmp))
    }

    ghost predicate Valid()
      reads this
    {
      Inv(View())
    }

    /** A new state: the main thread (fixed), its global table, the registry and
        an empty string table. */
    constructor ()
      ensures Valid() && gcstate == Pause && tmp == {}
    {
      mainthread, running := 0, 0;
      objs := map[0 := Thread(Gc(1), [Nil], []), 1 := Table(None, (false, false), [], []), 2 := Table(None, (false, false), [], [])];
      mark := map[0 := Mark(White(false), true, false, false), 1 := Mark(White(false), false, false, false), 2 := Mark(White(false), false, false, false)];
      gray, grayagain, weak := [], [], [];
      currentwhite, gcstate := false, Pause;
      swept, rest := [], [2, 1, 0];
      strt, nuse, sweepstrgc := seq(MIN_STRING_TABLE, _ => []), 0, 0;
      uvhead := [];
      registry := Gc(2);
      mts := seq(9, _ => None);
      tmp := {};
      new;
      InitialInv(View());
    }

    // ---- Marking ----------------------------------------------------------

    method SetColor(r: Ref, c: Color)
      requires r in mark
      modifies `mark
      ensures View() == GcHeap.SetColor(old(View()), r, c)
    {
      mark := mark[r := mark[r].(color := c)];
    }

    /** `reallymarkobject`. */
    method ReallyMarkObject(o: Ref)
      requires mark.Keys == objs.Keys && IsWhite(View(), o)
      modifies `mark, `gray
      ensures View() == ReallyMark(old(View()), o)
      decreases Whites(View()), 1
    {
      hide Extends;
      ghost var s := View();
      var obj := objs[o];
      SetColor(o, Gray);
      if obj.Udata? {
        SetColor(o, Black);
        WhitesDrop(s, o, Black);
        assert View() == GcHeap.SetColor(s, o, Black);
        if obj.meta.Some? {
          MarkObject(obj.meta.value);
        }
        ghost var s2 := MarkOpt(GcHeap.SetColor(s, o, Black), obj.meta);
        ExtendsFrame(GcHeap.SetColor(s, o, Black), s2);
        ExtendsWhites(GcHeap.SetColor(s, o, Black), s2);
        MarkObject(obj.env);
      } else if obj.Open? || obj.Closed? {
        WhitesDrop(s, o, Gray);
        var v := ValueOf(obj);
        ghost var s1 := View();
        MarkValue(v);
        ExtendsFrame(s1, View());
        if obj.Closed? { SetColor(o, Black); }
      } else if !obj.Str? {
        gray := [o] + gray;
      }
    }

    /** `markobject`. */
    method MarkObject(r: Ref)
      requires mark.Keys == objs.Keys
      modifies `mark, `gray
      ensures View() == MarkRef(old(View()), r)
      decreases Whites(View()), 2
    {
      if r in mark && mark[r].color.White? { ReallyMarkObject(r); }
    }

    /** `markvalue`. */
    method MarkValue(v: Value)
      requires mark.Keys == objs.Keys
      modifies `mark, `gray
      ensures View() == GcMark.MarkValue(old(View()), v)
      decreases Whites(View()), 3
    {
      if v.Gc? { MarkObject(v.ref); }
    }

    /** What an upvalue's pointer leads to. */
    method ValueOf(obj: Obj) returns (v: Value)
      ensures v == UpvalValue(View(), obj)
    {
      v := Nil;
      if obj.Closed? {
        v := obj.val;
      } else if obj.Open? {
        if obj.thread in objs && objs[obj.thread].Thread? && obj.level < |objs[obj.thread].stack| {
          v := objs[obj.thread].stack[obj.level];
        }
      }
    }

    // ---- Traversal --------------------------------------------------------

    method MarkList(vs: seq<Value>)
      requires mark.Keys == objs.Keys
      modifies `mark, `gray
      ensures View() == MarkAll(old(View()), vs)
    {
      hide Extends, ReallyMark;
      var i := 0;
      while i < |vs|
        invariant 0 <= i <= |vs| && mark.Keys == objs.Keys
        invariant MarkAll(old(View()), vs) == MarkAll(View(), vs[i..])
      {
        ghost var s := View();
        MarkValue(vs[i]);
        ExtendsFrame(s, View());
        assert vs[i..][0] == vs[i] && vs[i..][1..] == vs[i + 1..];
        i := i + 1;
      }
      assert vs[i..] == [];
    }

    /** `traversetable`; says whether the table is weak. */
    method TraverseTable(o: Ref) returns (isWeak: bool)
      requires mark.Keys == objs.Keys && o in objs && objs[o].Table? && !IsWhite(View(), o)
      modifies `mark, `gray, `weak
      ensures old(View()).mark.Keys == old(View()).objs.Keys
      ensures mark.Keys == objs.Keys && o in mark
      ensures isWeak == (Mode(old(View()), old(objs[o].mt)) != (false, false))
      ensures isWeak ==> GcHeap.SetColor(View(), o, Gray) == GcPropagate.TraverseTable(old(View()), o)
      ensures !isWeak ==> View() == GcPropagate.TraverseTable(old(View()), o)
    {
      hide Extends, ReallyMark, NodeRefs, Backwards;
      var h := objs[o];
      ghost var s := View();
      if h.mt.Some? { MarkObject(h.mt.value); }
      ghost var s1 := View();
      assert s1 == MarkOpt(s, h.mt);
      ExtendsFrame(s, s1);
      var weakKey, weakValue := false, false;
      if h.mt.Some? && h.mt.value in objs && objs[h.mt.value].Table? {
        weakKey, weakValue := objs[h.mt.value].mode.0, objs[h.mt.value].mode.1;
      }
      isWeak := weakKey || weakValue;
      if isWeak {
        mark := mark[o := mark[o].(keyWeak := weakKey, valueWeak := weakValue)];
        weak := [o] + weak;
      }
      ghost var s2 := View();
      if !(weakKey && weakValue) {
        MarkContents(h, weakKey, weakValue);
        ExtendsFrame(s2, View());
      }
      assert View() == MarkAll(s2, Contents(h, weakKey, weakValue));
    }

    /** The loops of `traversetable`, from the last slot to the first. */
    method MarkContents(h: Obj, weakKey: bool, weakValue: bool)
      requires mark.Keys == objs.Keys && h.Table? && !(weakKey && weakValue)
      modifies `mark, `gray
      ensures View() == MarkAll(old(View()), Contents(h, weakKey, weakValue))
    {
      hide Extends, ReallyMark, MarkAll, NodeRefs, Backwards;
      ghost var s := View();
      ghost var slots := if weakValue then [] else Backwards(h.arr);
      MarkAllAppend(s, slots, NodeRefs(h.nodes, weakKey, weakValue));
      if !weakValue { MarkSlots(h.arr); } else { MarkAllNone(s); }
      MarkNodes(h.nodes, weakKey, weakValue);
    }

    method MarkSlots(arr: seq<Value>)
      requires mark.Keys == objs.Keys
      modifies `mark, `gray
      ensures View() == MarkAll(old(View()), Backwards(arr))
    {
      hide Extends, ReallyMark;
      var i := |arr|;
      assert arr[..i] == arr;
      while i > 0
        invariant 0 <= i <= |arr| && mark.Keys == objs.Keys
        invariant MarkAll(old(View()), Backwards(arr)) == MarkAll(View(), Backwards(arr[..i]))
      {
        i := i - 1;
        ghost var s := View();
        MarkValue(arr[i]);
        ExtendsFrame(s, View());
        assert arr[..i + 1][..i] == arr[..i];
        assert Backwards(arr[..i + 1]) == [arr[i]] + Backwards(arr[..i]);
      }
    }

    method MarkNodes(nodes: seq<Node>, weakKey: bool, weakValue: bool)
      requires mark.Keys == objs.Keys
      modifies `mark, `gray
      ensures View() == MarkAll(old(View()), NodeRefs(nodes, weakKey, weakValue))
    {
      hide Extends, ReallyMark, Entry;
      var i := |nodes|;
      assert nodes[..i] == nodes;
      while i > 0
        invariant 0 <= i <= |nodes| && mark.Keys == objs.Keys
        invariant MarkAll(old(View()), NodeRefs(nodes, weakKey, weakValue)) ==
                  MarkAll(View(), NodeRefs(nodes[..i], weakKey, weakValue))
      {
        i := i - 1;
        ghost var s := View();
        assert nodes[..i + 1][..i] == nodes[..i];
        MarkAllAppend(s, Entry(nodes[i], weakKey, weakValue), NodeRefs(nodes[..i], weakKey, weakValue));
        MarkEntry(nodes[i], weakKey, weakValue);
        ExtendsFrame(s, View());
      }
      assert nodes[..i] == [];
    }

    method MarkEntry(n: Node, weakKey: bool, weakValue: bool)
      requires mark.Keys == objs.Keys
      modifies `mark, `gray
      ensures View() == MarkAll(old(View()), Entry(n, weakKey, weakValue))
    {
      hide Extends, ReallyMark;
      if !n.val.Nil? {
        ghost var s := View();
        MarkAllAppend(s, if weakKey then [] else [n.key], if weakValue then [] else [n.val]);
        if !weakKey {
          MarkValue(n.key);
          ExtendsFrame(s, View());
        }
        if !weakValue { MarkValue(n.val); }
      }
    }

    /** `propagatemark`. */
    method PropagateMark()
      requires Ready(View())
      modifies `mark, `gray, `grayagain, `weak
      ensures View() == GcPropagate.PropagateMark(old(View()))
    {
      hide Extends, ReallyMark, Contents, GcPropagate.TraverseTable;
      ghost var s := View();
      var o := gray[0];
      SetColor(o, Black);
      gray := gray[1..];
      match objs[o] {
        case Table(_, _, _, _) =>
          ghost var s1 := View();
          var isWeak := TraverseTable(o);
          if isWeak { SetColor(o, Gray); }
        case Func(vs) => MarkList(vs);
        case Proto(vs) => MarkList(vs);
        case Thread(gt, stack, _) =>
          grayagain := [o] + grayagain;
          SetColor(o, Gray);
          assert View() == GcHeap.SetColor(GcHeap.SetColor(s, o, Black).(gray := s.gray[1..]), o, Gray).(grayagain := [o] + s.grayagain);
          MarkList([gt] + stack);
        case _ => assert false;
      }
    }

    /** `propagateall`. */
    method PropagateAll()
      requires ListsGray(View())
      modifies `mark, `gray, `grayagain, `weak
      ensures View() == GcPropagate.PropagateAll(old(View())) && ListsGray(View())
    {
      hide GcPropagate.PropagateMark, ListsGray, Ready, Propagated, After;
      while gray != []
        invariant ListsGray(View())
        invariant GcPropagate.PropagateAll(old(View())) == GcPropagate.PropagateAll(View())
        decreases Whites(View()), |gray|
      {
        HeadReady(View());
        PropagateStep(View());
        PropagateMark();
      }
    }

    // ---- Roots and the atomic step ----------------------------------------

    method MarkMetatables()
      requires mark.Keys == objs.Keys
      modifies `mark, `gray
      ensures View() == MarkMts(old(View()), mts)
    {
      hide Extends, ReallyMark;
      var i := 0;
      while i < |mts|
        invariant 0 <= i <= |mts| && mark.Keys == objs.Keys
        invariant MarkMts(old(View()), mts) == MarkMts(View(), mts[i..])
      {
        ghost var s := View();
        if mts[i].Some? { MarkObject(mts[i].value); }
        assert View() == MarkOpt(s, mts[i]);
        ExtendsFrame(s, View());
        assert mts[i..][0] == mts[i] && mts[i..][1..] == mts[i + 1..];
        i := i + 1;
      }
    }

    /** `markroot`. */
    method MarkRoot()
      requires mark.Keys == objs.Keys
      modifies `mark, `gray, `grayagain, `weak, `gcstate
      ensures View() == GcAtomic.MarkRoot(old(View()))
    {
      hide Extends, ReallyMark, MarkMts, GcAtomic.MarkMain, Refs, Contents;
      assert old(View()).(gray := [], grayagain := [], weak := []) == State(objs, mark, [], [], [], View().g);
      ResetLists();
      ghost var s1 := View();
      MarkMain();
      ghost var s2 := View();
      ExtendsFrame(s1, s2);
      MarkValue(registry);
      ExtendsFrame(s2, View());
      MarkMetatables();
      gcstate := Propagate;
    }

    /** The main thread, and its globals before its stack. */
    method MarkMain()
      requires mark.Keys == objs.Keys
      modifies `mark, `gray
      ensures View() == GcAtomic.MarkMain(old(View()))
    {
      hide Extends, ReallyMark;
      ghost var s0 := View();
      MarkObject(mainthread);
      ghost var s1 := View();
      ExtendsFrame(s0, s1);
      if mainthread in objs && objs[mainthread].Thread? {
        MarkValue(objs[mainthread].gt);
        ExtendsFrame(s1, View());
      }
    }

    /** `remarkupvals`. */
    method RemarkUpvals()
      requires mark.Keys == objs.Keys
      modifies `mark, `gray
      ensures View() == GcAtomic.RemarkUpvals(old(View()), uvhead)
    {
      hide Extends, ReallyMark, UpvalValue;
      var i := 0;
      while i < |uvhead|
        invariant 0 <= i <= |uvhead| && mark.Keys == objs.Keys
        invariant GcAtomic.RemarkUpvals(old(View()), uvhead) == GcAtomic.RemarkUpvals(View(), uvhead[i..])
      {
        ghost var s := View();
        var u := uvhead[i];
        if u in mark && mark[u].color.Gray? {
          var v := ValueOf(objs[u]);
          MarkValue(v);
          ExtendsFrame(s, View());
        }
        assert uvhead[i..][0] == u && uvhead[i..][1..] == uvhead[i + 1..];
        i := i + 1;
      }
    }

    /** `iscleared`: as a side effect, strings are marked. */
    method IsCleared(v: Value) returns (cleared: bool)
      requires mark.Keys == objs.Keys
      modifies `mark
      ensures cleared == Cleared(old(View()), v)
      ensures mark == MarkStrings(old(mark), StringOf(objs, v))
    {
      cleared := false;
      if v.Gc? && v.ref in objs {
        if objs[v.ref].Str? {
          if mark[v.ref].color.White? { mark := mark[v.ref := mark[v.ref].(color := Gray)]; }
        } else {
          cleared := mark[v.ref].color.White?;
        }
      }
    }

    /** The loop of `cleartable` over the array part. */
    method ClearSlots(values: seq<Value>) returns (arr: seq<Value>)
      requires mark.Keys == objs.Keys
      modifies `mark
      ensures arr == ClearArray(old(View()), values)
      ensures mark == MarkStrings(old(mark), ValueStrings(old(View()), values))
    {
      hide MarkStrings, Cleared;
      ghost var s := View();
      ghost var seen: set<Ref> := {};
      MarkNothing(mark);
      arr := values;
      var i := |arr|;
      while i > 0
        invariant 0 <= i <= |arr| == |values| && mark.Keys == objs.Keys
        invariant View() == s.(mark := MarkStrings(s.mark, seen))
        invariant forall j :: 0 <= j < |arr| ==> arr[j] == if j >= i && Cleared(s, values[j]) then Nil else values[j]
        invariant seen == ValueStrings(s, values[i..])
      {
        i := i - 1;
        assert values[i..] == [values[i]] + values[i + 1..];
        ValueStringsCons(s, values[i], values[i + 1..]);
        ClearedStrings(s, seen, values[i]);
        MarkTwice(s.mark, seen, StringOf(objs, values[i]));
        var c := IsCleared(arr[i]);
        seen := seen + StringOf(objs, values[i]);
        if c { arr := arr[i := Nil]; }
      }
      assert values[0..] == values;
    }

    /** The loop of `cleartable` over the nodes. */
    method ClearEntries(entries: seq<Node>) returns (nodes: seq<Node>)
      requires mark.Keys == objs.Keys
      modifies `mark
      ensures nodes == ClearNodes(old(View()), entries)
      ensures mark == MarkStrings(old(mark), NodeStrings(old(View()), entries))
    {
      hide MarkStrings, ClearNode;
      ghost var s := View();
      ghost var seen: set<Ref> := {};
      MarkNothing(mark);
      nodes := entries;
      var i := |nodes|;
      while i > 0
        invariant 0 <= i <= |nodes| == |entries| && mark.Keys == objs.Keys
        invariant View() == s.(mark := MarkStrings(s.mark, seen))
        invariant forall j :: 0 <= j < |nodes| ==> nodes[j] == if j >= i then ClearNode(s, entries[j]) else entries[j]
        invariant seen == NodeStrings(s, entries[i..])
      {
        i := i - 1;
        assert entries[i..] == [entries[i]] + entries[i + 1..];
        NodeStringsCons(s, entries[i], entries[i + 1..]);
        var n := ClearEntry(nodes[i], s, seen);
        nodes := nodes[i := n];
        seen := NodeStrings(s, entries[i..]);
      }
      assert entries[0..] == entries;
    }

    method ClearEntry(n: Node, ghost s: State, ghost seen: set<Ref>) returns (m: Node)
      requires mark.Keys == objs.Keys == s.mark.Keys == s.objs.Keys
      requires View() == s.(mark := MarkStrings(s.mark, seen)) && forall r <- seen :: r in s.objs && s.objs[r].Str?
      modifies `mark
      ensures m == ClearNode(s, n)
      ensures mark == MarkStrings(s.mark, seen +
        (if n.val.Nil? then {} else StringOf(s.objs, n.key) + (if Cleared(s, n.key) then {} else StringOf(s.objs, n.val))))
    {
      hide MarkStrings, Cleared;
      m := n;
      if !n.val.Nil? {
        ClearedStrings(s, seen, n.key);
        MarkTwice(s.mark, seen, StringOf(objs, n.key));
        var c := IsCleared(n.key);
        if !c {
          ghost var seen2 := seen + StringOf(objs, n.key);
          ClearedStrings(s, seen2, n.val);
          MarkTwice(s.mark, seen2, StringOf(objs, n.val));
          assert seen2 + StringOf(objs, n.val) == seen + (StringOf(objs, n.key) + StringOf(objs, n.val));
          c := IsCleared(n.val);
        } else {
          assert StringOf(objs, n.key) + {} == StringOf(objs, n.key);
        }
        if c { m := Node(if n.key.Gc? then DeadKey else n.key, Nil); }
      } else {
        assert seen + {} == seen;
      }
    }

    /** `cleartable`, for one table of the weak list. */
    method ClearTable(h: Ref)
      requires mark.Keys == objs.Keys && h in objs && objs[h].Table?
      modifies `mark, `objs
      ensures View() == GcAtomic.ClearTable(old(View()), h)
    {
      hide MarkStrings, Cleared, ClearNode, ClearNodes, ClearArray, TestedStrings;
      ghost var s := View();
      var o := objs[h];
      var arr := o.arr;
      ghost var seen: set<Ref> := {};
      MarkNothing(mark);
      if mark[h].valueWeak {
        arr := ClearSlots(arr);
        seen := ValueStrings(s, o.arr);
      }
      ghost var t := View();
      var nodes := ClearEntries(o.nodes);
      ClearNodesSame(s, t, seen, o.nodes);
      MarkTwice(s.mark, seen, NodeStrings(s, o.nodes));
      SeenAll(s, o, s.mark[h].valueWeak, seen + NodeStrings(s, o.nodes));
      objs := objs[h := o.(arr := arr, nodes := nodes)];
    }

    /** `cleartable`. */
    method ClearTables()
      requires mark.Keys == objs.Keys
      requires forall h <- weak :: h in objs && objs[h].Table?
      modifies `mark, `objs
      ensures View() == GcAtomic.ClearTables(old(View()), old(weak))
    {
      hide GcAtomic.ClearTable, Refs;
      var i := 0;
      while i < |weak|
        invariant 0 <= i <= |weak| && mark.Keys == objs.Keys
        invariant forall h <- weak :: h in objs && objs[h].Table?
        invariant GcAtomic.ClearTables(old(View()), weak) == GcAtomic.ClearTables(View(), weak[i..])
      {
        ghost var s := View();
        ClearTableFrame(s, weak[i]);
        ClearTable(weak[i]);
        assert weak[i..][0] == weak[i] && weak[i..][1..] == weak[i + 1..];
        i := i + 1;
      }
    }

    method RemarkOpen()
      requires ListsGray(View())
      modifies `mark, `gray, `grayagain, `weak
      ensures View() == GcAtomic.RemarkOpen(old(View())) && ListsGray(View())
    {
      hide Extends, ReallyMark, ListsGray, GcPropagate.PropagateAll, GcAtomic.RemarkUpvals;
      ghost var s := View();
      ListsKeys(s);
      RemarkUpvals();
      ExtendsListsGray(s, View());
      PropagateAll();
    }

    method RemarkWeak()
      requires ListsGray(View()) && gray == []
      modifies `mark, `gray, `grayagain, `weak
      ensures View() == GcAtomic.RemarkWeak(old(View())) && ListsGray(View())
    {
      hide Extends, ReallyMark, ListsGray, GcPropagate.PropagateAll, MarkMts;
      RequeuedWeak(View());
      gray, weak := weak, [];
      ghost var s2 := View();
      ListsKeys(s2);
      MarkObject(running);
      ghost var s3 := View();
      ExtendsListsGray(s2, s3);
      ListsKeys(s3);
      ExtendsFrame(s2, s3);
      MarkMetatables();
      ExtendsListsGray(s3, View());
      PropagateAll();
    }

    /** `atomic` up to the clearing of weak tables. */
    method AtomicMark()
      requires ListsGray(View())
      modifies `mark, `gray, `grayagain, `weak
      ensures View() == GcAtomic.AtomicMark(old(View())) && ListsGray(View())
    {
      hide ListsGray, GcPropagate.PropagateAll, GcAtomic.RemarkOpen, GcAtomic.RemarkWeak;
      RemarkOpen();
      RemarkWeak();
      RequeuedWeak(View());
      gray, grayagain := grayagain, [];
      PropagateAll();
    }

    /** `atomic`. */
    method AtomicStep()
      requires ListsGray(View())
      modifies `mark, `gray, `grayagain, `weak, `objs, `currentwhite, `sweepstrgc, `swept, `rest, `gcstate
      ensures View() == GcAtomic.Atomic(old(View()))
    {
      hide ListsGray, GcAtomic.ClearTables, GcAtomic.AtomicMark;
      AtomicMark();
      ListsKeys(View());
      WeakAreTables(View());
      ClearTables();
      currentwhite := !currentwhite;
      RestartSweep();
    }

    // ---- Barriers and links -----------------------------------------------

    /** `luaC_barrierf`, with the test that guards it. */
    method Barrier(o: Ref, v: Value)
      requires mark.Keys == objs.Keys
      modifies `mark, `gray
      ensures View() == BarrierForward(old(View()), o, v)
    {
      if v.Gc? && v.ref in mark && mark[v.ref].color.White? && o in mark && mark[o].color.Black? {
        if gcstate == Propagate {
          ReallyMarkObject(v.ref);
        } else {
          SetColor(o, White(currentwhite));
        }
      }
    }

    /** `luaC_barrierback`, with the test that guards it. */
    method BarrierTable(t: Ref, v: Value)
      modifies `mark, `grayagain
      ensures View() == BarrierBack(old(View()), t, v)
    {
      if v.Gc? && v.ref in mark && mark[v.ref].color.White? && t in mark && mark[t].color.Black? {
        mark := mark[t := mark[t].(color := Gray)];
        grayagain := [t] + grayagain;
      }
    }

    /** The list part of `luaC_link`. */
    method Link(r: Ref)
      modifies `swept, `rest
      ensures View() == LinkRoot(old(View()), r)
    {
      if swept == [] { rest := [r] + rest; } else { swept := [r] + swept; }
    }

    /** `luaC_linkupval`. */
    method LinkUpvalue(u: Ref)
      requires mark.Keys == objs.Keys && u in objs
      modifies `mark, `gray, `swept, `rest
      ensures View() == LinkUpval(old(View()), u)
    {
      hide BarrierForward, UpvalValue;
      Link(u);
      if mark[u].color.Gray? {
        if gcstate == Propagate {
          var v := ValueOf(objs[u]);
          SetColor(u, Black);
          Barrier(u, v);
        } else {
          SetColor(u, White(currentwhite));
        }
      }
    }

    /** `luaF_close`. */
    method CloseUpvalues(th: Ref, level: nat)
      requires Closable(View(), th)
      modifies `mark, `gray, `swept, `rest, `objs, `uvhead, `nuse
      ensures View() == CloseUpvals(old(View()), th, level)
    {
      hide LinkUpval, Closable, CloseOne;
      NewestOpen(View(), th);
      while objs[th].open != [] && objs[objs[th].open[0]].level >= level
        invariant Newest(View(), th)
        invariant CloseUpvals(View(), th, level) == CloseUpvals(old(View()), th, level)
        decreases |objs[th].open|
      {
        ghost var s := View();
        CloseOneObjs(s, th);
        CloseOneClosable(s, CloseOne(s, th), th);
        CloseNewest(th);
        NewestOpen(View(), th);
      }
    }

    method CloseNewest(th: Ref)
      requires Newest(View(), th) && objs[th].open != []
      modifies `mark, `gray, `swept, `rest, `objs, `uvhead, `nuse
      ensures View() == CloseOne(old(View()), th)
    {
      hide LinkUpval, Closable, UpvalValue;
      var u := objs[th].open[0];
      var v := ValueOf(objs[u]);
      var dead := mark[u].color == White(!currentwhite);
      objs := objs[th := objs[th].(open := objs[th].open[1..])];
      if dead {
        FreeLeafObject(u);
      } else {
        objs := objs[u := Closed(v)];
        Unlink(u);
        LinkUpvalue(u);
      }
    }

    /** `unlinkupval`. */
    method Unlink(u: Ref)
      modifies `uvhead
      ensures uvhead == Without(old(uvhead), u)
    {
      var i := 0;
      var l := [];
      while i < |uvhead|
        invariant 0 <= i <= |uvhead|
        invariant l + Without(uvhead[i..], u) == Without(uvhead, u)
      {
        if uvhead[i] != u { l := l + [uvhead[i]]; }
        assert uvhead[i..][1..] == uvhead[i + 1..];
        i := i + 1;
      }
      uvhead := l;
    }

    // ---- Sweeping ---------------------------------------------------------

    /** `freeobj`, for everything but threads. */
    method FreeLeafObject(r: Ref)
      requires r in objs
      modifies `mark, `objs, `uvhead, `nuse
      ensures View() == FreeLeaf(old(View()), r)
    {
      if objs[r].Str? {
        nuse := nuse - 1;
      } else if objs[r].Open? {
        Unlink(r);
      }
      objs, mark := objs - {r}, mark - {r};
    }

    /** `freeobj`. */
    method FreeObject(r: Ref)
      requires r in objs && (objs[r].Thread? ==> Closable(View(), r))
      modifies `mark, `gray, `swept, `rest, `objs, `uvhead, `nuse
      ensures View() == FreeObj(old(View()), r)
    {
      hide Closable, CloseUpvals;
      if objs[r].Thread? {
        ghost var s := View();
        CloseUpvalues(r, 0);
        NewestOpen(CloseUpvals(s, r, 0), r);
      }
      FreeLeafObject(r);
    }

    /** `sweepwholelist` over a chain of strings or of open upvalues. */
    method SweepList(l: seq<Ref>) returns (kept: seq<Ref>)
      requires Chain(View(), l)
      modifies `mark, `objs, `uvhead, `nuse
      ensures View() == SweepChain(old(View()), l) && kept == Kept(old(View()), l)
    {
      hide Chain, Survives, SweepOneLeaf;
      ghost var s := View();
      kept := [];
      var i := 0;
      assert l[0..] == l;
      while i < |l|
        invariant 0 <= i <= |l| && Chain(View(), l[i..])
        invariant SweepChain(View(), l[i..]) == SweepChain(s, l)
        invariant kept + Kept(View(), l[i..]) == Kept(s, l)
      {
        ghost var t := View();
        assert l[i..][0] == l[i] && l[i..][1..] == l[i + 1..];
        SweepLeafChain(t, l[i..]);
        KeptLater(t, l[i..]);
        ChainHead(t, l[i..]);
        var alive := SweepLeaf(l[i]);
        if alive { kept := kept + [l[i]]; }
        i := i + 1;
      }
    }

    method SweepLeaf(r: Ref) returns (alive: bool)
      requires r in objs && r in mark
      modifies `mark, `objs, `uvhead, `nuse
      ensures alive == Survives(old(View()), r) && View() == SweepOneLeaf(old(View()), r)
    {
      alive := mark[r].color != White(!currentwhite) || mark[r].fixed;
      if alive { SetColor(r, White(currentwhite)); } else { FreeLeafObject(r); }
    }

    /** The string part of the sweep: the next bucket. */
    method SweepStrings()
      requires sweepstrgc < |strt| && Chain(View(), strt[sweepstrgc])
      modifies `mark, `objs, `uvhead, `nuse, `strt, `sweepstrgc, `gcstate
      ensures View() == SweepBucket(old(View()))
    {
      hide Chain, SweepChain, Kept;
      ghost var s := View();
      SweepChainSpec(s, strt[sweepstrgc]);
      SweptFrame(s, SweepChain(s, strt[sweepstrgc]), Elements(strt[sweepstrgc]));
      var kept := SweepList(strt[sweepstrgc]);
      strt := strt[sweepstrgc := kept];
      sweepstrgc := sweepstrgc + 1;
      if sweepstrgc >= |strt| { gcstate := Sweep; }
    }

    /** One round of `sweeplist` over `rootgc`. */
    method SweepNext()
      requires Sweepable(View()) && rest != []
      modifies `mark, `gray, `swept, `rest, `objs, `uvhead, `nuse
      ensures View() == SweepRootOne(old(View()))
    {
      hide Sweepable, Chain, SweepRootHead, SweepOpen;
      ghost var s := View();
      SweepableHead(s);
      if objs[rest[0]].Thread? {
        SweepOpenSweepable(s, rest[0]);
        SweepUpvalues(rest[0]);
      }
      SweepHead();
    }

    method SweepUpvalues(th: Ref)
      requires th in objs && objs[th].Thread? && Chain(View(), objs[th].open)
      modifies `mark, `objs, `uvhead, `nuse
      ensures View() == SweepOpen(old(View()), th)
    {
      hide Chain, SweepChain, Kept;
      ghost var s := View();
      SweptHead(s, th);
      var o := objs[th];
      var kept := SweepList(o.open);
      objs := objs[th := o.(open := kept)];
    }

    method SweepHead()
      requires Sweepable(View()) && rest != []
      modifies `mark, `gray, `swept, `rest, `objs, `uvhead, `nuse
      ensures View() == SweepRootHead(old(View()))
    {
      hide Sweepable, FreeObj, Closable, SweepRootHead;
      ghost var s := View();
      SweepableHead(s);
      SweepHeadForm(s);
      var r := rest[0];
      var alive := mark[r].color != White(!currentwhite) || mark[r].fixed;
      rest := rest[1..];
      assert View() == s.(g := s.g.(rest := s.g.rest[1..]));
      if alive {
        SetColor(r, White(currentwhite));
        swept := swept + [r];
      } else {
        FreeObject(r);
      }
    }

    /** `sweeplist` over `rootgc`, at most `n` objects. */
    method SweepSome(n: nat)
      requires Valid() && gcstate == Sweep
      modifies `mark, `gray, `swept, `rest, `objs, `uvhead, `nuse
      ensures View() == SweepRoot(old(View()), n) && Valid()
    {
      hide Inv, Sweepable, SweepRootOne;
      var i := n;
      while i > 0 && rest != []
        invariant Valid() && gcstate == Sweep && 0 <= i <= n
        invariant SweepRoot(View(), i) == SweepRoot(old(View()), n)
      {
        ghost var s := View();
        SweepRootOneInv(s);
        SweepRootOnePhase(s);
        SweepNext();
        i := i - 1;
      }
    }

    /** `luaS_fix`. */
    method FixString(r: Ref)
      requires Valid() && r in objs && objs[r].Str?
      modifies `mark
      ensures old(r in mark) && View() == Fix(old(View()), r) && Valid()
    {
      hide Inv;
      FixInv(View(), r);
      mark := mark[r := mark[r].(fixed := true)];
    }

    // ---- The string table -------------------------------------------------

    /** The inner loop of `luaS_resize`: relinks one chain. */
    method Relink(l: seq<Ref>, h: seq<seq<Ref>>) returns (t: seq<seq<Ref>>)
      requires |h| > 0 && forall r <- l :: r in objs && objs[r].Str?
      ensures t == RehashChain(View(), l, h)
    {
      t := h;
      var i := 0;
      assert l[0..] == l;
      while i < |l|
        invariant 0 <= i <= |l| && |t| == |h|
        invariant RehashChain(View(), l[i..], t) == RehashChain(View(), l, h)
      {
        var b := StringHash.Bucket(objs[l[i]].bytes, |t|);
        assert l[i..][0] == l[i] && l[i..][1..] == l[i + 1..];
        t := t[b := [l[i]] + t[b]];
        i := i + 1;
      }
    }

    /** `luaS_resize`. */
    method ResizeStrings(n: nat)
      requires StringTable(View()) && n > 0
      modifies `strt
      ensures View() == Resize(old(View()), n)
    {
      hide RehashChain, StringTable;
      if gcstate != SweepString {
        ghost var s := View();
        var h := seq(n, _ => []);
        var i := 0;
        while i < |strt|
          invariant View() == s && 0 <= i <= |strt| && |h| == n
          invariant RehashFrom(s, i, h) == RehashFrom(s, 0, seq(n, _ => []))
        {
          BucketStrings(s, i);
          h := Relink(strt[i], h);
          i := i + 1;
        }
        strt := h;
      }
    }

    /** The loop of `luaS_newlstr` over one chain. */
    method FindString(chain: seq<Ref>, bytes: seq<bv8>) returns (q: Option<Ref>)
      ensures q == Lookup(View(), chain, bytes)
    {
      var i := 0;
      assert chain[0..] == chain;
      while i < |chain| && !(chain[i] in objs && objs[chain[i]] == Str(bytes))
        invariant 0 <= i <= |chain|
        invariant Lookup(View(), chain[i..], bytes) == Lookup(View(), chain, bytes)
      {
        assert chain[i..][1..] == chain[i + 1..];
        i := i + 1;
      }
      q := if i < |chain| then Some(chain[i]) else None;
    }

    /** Brings an object that was found again back to life. */
    method ReviveObject(q: Ref)
      requires q in mark
      modifies `mark, `tmp
      ensures View() == Revive(old(View()), q)
    {
      if mark[q].color == White(!currentwhite) { SetColor(q, White(currentwhite)); }
      tmp := tmp + {q};
    }

    /** `newlstr`. */
    method AddNewString(bytes: seq<bv8>, r: Ref)
      requires StringTable(View()) && r !in objs
      requires Lookup(View(), strt[StringHash.Bucket(bytes, |strt|)], bytes).None?
      modifies `mark, `objs, `strt, `nuse, `tmp
      ensures View() == NewString(old(View()), bytes, r)
    {
      hide StringTable, Resize, Lookup, StringHash.Bucket;
      ghost var s := View();
      StringTableNonEmpty(s);
      AddStringTable(s, bytes, r);
      var b := StringHash.Bucket(bytes, |strt|);
      objs, mark := objs[r := Str(bytes)], mark[r := NEW_MARK.(color := White(currentwhite))];
      strt := strt[b := [r] + strt[b]];
      nuse := nuse + 1;
      tmp := tmp + {r};
      assert View() == AddString(s, bytes, r);
      if nuse > |strt| && |strt| <= MAX_INT / 2 { ResizeStrings(|strt| * 2); }
    }

    /** `luaS_newlstr`; `r` is the address of the string if a new one is made. */
    method NewLStr(bytes: seq<bv8>, r: Ref) returns (q: Ref)
      requires Valid() && r !in objs
      modifies `mark, `objs, `strt, `nuse, `tmp
      ensures old(mark.Keys == objs.Keys && StringTable(View()))
      ensures View() == Intern(old(View()), bytes, r) && Valid()
      ensures q in objs && objs[q] == Str(bytes)
      ensures forall x <- objs :: objs[x] == Str(bytes) ==> x == q
    {
      hide StringTable, Inv, Lookup, Revive, NewString, StringHash.Bucket;
      ghost var s := View();
      InternInv(s, bytes, r);
      InternResult(s, bytes, r);
      StringTableNonEmpty(s);
      var b := StringHash.FindBucket(bytes, |strt|);
      var found := FindString(strt[b], bytes);
      FoundInTable(s, strt[b], bytes);
      if found.Some? {
        q := found.value;
        ReviveObject(q);
      } else {
        q := r;
        AddNewString(bytes, r);
      }
    }

    // ---- Captures ---------------------------------------------------------

    /** The loop of `luaF_findupval`: how many open upvalues are above `level`. */
    method FindOpen(level: nat) returns (i: nat)
      requires Capturable(View())
      ensures i == Above(View(), objs[running].open, level)
    {
      var l := objs[running].open;
      i := 0;
      assert l[0..] == l;
      while i < |l| && objs[l[i]].level > level
        invariant 0 <= i <= |l|
        invariant Above(View(), l, level) == i + Above(View(), l[i..], level)
      {
        assert l[i..][0] == l[i] && l[i..][1..] == l[i + 1..];
        i := i + 1;
      }
    }

    /** `luaF_findupval`; `r` is the address of the upvalue if a new one is made. */
    method FindUpvalue(level: nat, r: Ref) returns (u: Ref)
      requires Valid() && r !in objs && Capturable(View()) && level < |objs[running].stack|
      modifies `mark, `objs, `uvhead, `tmp
      ensures View() == FindUpval(old(View()), level, r) && Valid()
      ensures u == Captured(old(View()), level, r)
      ensures u in objs && objs[u] == Open(running, level)
    {
      hide Inv, Above;
      ghost var s := View();
      FindUpvalInv(s, level, r);
      CapturedOpen(s, level, r);
      var l := objs[running].open;
      var i := FindOpen(level);
      if i < |l| && objs[l[i]].level == level {
        u := l[i];
        ReviveObject(u);
      } else {
        u := r;
        NewUpvalue(level, r, i);
      }
    }

    /** The new upvalue goes to its place in the list, and into the list of all. */
    method NewUpvalue(level: nat, r: Ref, i: nat)
      requires running in objs && objs[running].Thread? && i <= |objs[running].open|
      modifies `mark, `objs, `uvhead, `tmp
      ensures var s := old(View()); var l := s.objs[s.g.running].open;
              View() == s.(objs := s.objs[s.g.running := s.objs[s.g.running].(open := l[..i] + [r] + l[i..])][r := Open(s.g.running, level)],
                           mark := s.mark[r := NEW_MARK.(color := White(s.g.cur))],
                           g := s.g.(uvhead := [r] + s.g.uvhead, tmp := s.g.tmp + {r}))
    {
      var l := objs[running].open;
      objs := objs[running := objs[running].(open := l[..i] + [r] + l[i..])][r := Open(running, level)];
      mark := mark[r := NEW_MARK.(color := White(currentwhite))];
      uvhead := [r] + uvhead;
      tmp := tmp + {r};
    }

    // ---- The collector ----------------------------------------------------

    /** The sweep phase of `singlestep`. */
    method SweepStep()
      requires Valid() && gcstate == Sweep
      modifies `mark, `gray, `swept, `rest, `objs, `uvhead, `nuse, `strt, `gcstate
      ensures View() == SingleStep(old(View()))
    {
      hide Inv, StringTable, SweepRoot, EndSweep;
      SweepSome(GC_SWEEP_MAX);
      if rest == [] {
        InvTable(View());
        FinishSweep();
      }
    }

    /** `checkSizes`, and on to the next phase. */
    method FinishSweep()
      requires StringTable(View())
      modifies `strt, `gcstate
      ensures View() == EndSweep(old(View()))
    {
      hide StringTable, Resize;
      StringTableNonEmpty(View());
      if nuse < |strt| / 4 && |strt| > MIN_STRING_TABLE * 2 { ResizeStrings(|strt| / 2); }
      gcstate := Finalize;
    }

    /** `singlestep`. */
    method Step()
      requires Valid() && tmp == {}
      modifies this
      ensures View() == SingleStep(old(View())) && Valid()
    {
      hide Inv, Chain, ListsGray, Ready, GcAtomic.MarkRoot, GcPropagate.PropagateMark, Atomic, SweepBucket, SweepRoot, EndSweep;
      ghost var s := View();
      SingleStepInv(s);
      if gcstate == Pause {
        InvKeys(s);
        MarkRoot();
      } else if gcstate == Propagate {
        InvLists(s);
        if gray != [] {
          PropagateInv(s);
          PropagateMark();
        } else {
          AtomicStep();
        }
      } else if gcstate == SweepString {
        SweepBucketInv(s);
        SweepStrings();
      } else if gcstate == Sweep {
        SweepStep();
      } else {
        gcstate := Pause;
      }
    }

    /** The loops of `luaC_fullgc`. */
    method StepUntil(stop: Phase)
      requires Valid() && tmp == {} && Rank(stop) <= 1 && Rank(stop) <= Rank(gcstate)
      modifies this
      ensures View() == RunUntil(old(View()), stop) && Valid() && tmp == {} && gcstate == stop
    {
      hide Inv, SingleStep, Work, Unmarked;
      while gcstate != stop
        invariant Valid() && tmp == {} && Rank(stop) <= Rank(gcstate)
        invariant RunUntil(View(), stop) == RunUntil(old(View()), stop)
        decreases Rank(gcstate), Unmarked(View()), Work(View())
      {
        StepFacts(View(), stop);
        Step();
      }
    }

    /** The first half of `luaC_fullgc`. */
    method FinishCycle()
      requires Valid() && tmp == {}
      modifies this
      ensures View() == Finished(old(View())) && Valid() && tmp == {} && gcstate == Finalize
    {
      hide Inv, RunUntil, Reset;
      ResetReady(View());
      ResetMarks();
      StepUntil(Finalize);
    }

    method ResetMarks()
      modifies this
      ensures View() == Reset(old(View()))
    {
      if gcstate == Pause || gcstate == Propagate {
        ResetLists();
        RestartSweep();
      }
    }

    method ResetLists()
      modifies `gray, `grayagain, `weak
      ensures View() == old(View()).(gray := [], grayagain := [], weak := [])
    {
      gray, grayagain, weak := [], [], [];
    }

    method RestartSweep()
      modifies `swept, `rest, `sweepstrgc, `gcstate
      ensures View() == old(View()).(g := old(View()).g.(sweepstr := 0, swept := [], rest := old(swept + rest), phase := SweepString))
    {
      sweepstrgc := 0;
      swept, rest := [], swept + rest;
      gcstate := SweepString;
    }

    /** `luaC_fullgc`: what is left is exactly what has to be. */
    method FullCollection()
      requires Valid() && tmp == {}
      modifies this
      ensures View() == FullGc(old(View())) && Valid() && gcstate == Pause
      ensures forall r :: r in objs <==> Survivor(old(View()), r)
    {
      hide Inv, RunUntil, GcAtomic.MarkRoot, Survivor, Finished;
      ghost var s := View();
      FinishCycle();
      NewCycle(View());
      MarkRoot();
      StepUntil(Pause);
      forall r ensures r in FullGc(s).objs <==> Survivor(s, r) { FullGcExact(s, r); }
    }
  }

  /** What closing the newest open upvalue of `th` reads. */
  ghost predicate Newest(s: State, th: Ref) {
    && Closable(s, th)
    && s.mark.Keys == s.objs.Keys && th in s.objs && s.objs[th].Thread?
    && (s.objs[th].open != [] ==> var u := s.objs[th].open[0];
         u in s.objs && s.objs[u].Open? && u != th)
  }

  lemma NewestOpen(s: State, th: Ref)
    requires Closable(s, th)
    ensures Newest(s, th)
  {
    assert OpenList(s, th);
  }

  lemma ChainHead(s: State, l: seq<Ref>)
    requires Chain(s, l) && l != []
    ensures s.mark.Keys == s.objs.Keys && l[0] in s.objs
  {}

  /** Sweeping the head of a chain does not change the fate of the others. */
  lemma KeptLater(s: State, l: seq<Ref>)
    requires Chain(s, l) && l != []
    ensures var t := SweepOneLeaf(s, l[0]); Kept(t, l[1..]) == Kept(s, l[1..])
  {
    var t := SweepOneLeaf(s, l[0]);
    TailMembers(l);
    forall r <- l[1..] ensures Survives(t, r) == Survives(s, r) {}
    hide Chain, Survives, SweepOneLeaf;
    KeptSame(s, t, l[1..]);
  }

  lemma {:induction false} KeptSame(s: State, t: State, l: seq<Ref>)
    requires forall r <- l :: Survives(t, r) == Survives(s, r)
    ensures Kept(t, l) == Kept(s, l)
  {
    if l != [] {
      assert l == [l[0]] + l[1..];
      KeptSame(s, t, l[1..]);
    }
  }

  lemma SweepHeadForm(s: State)
    requires Sweepable(s) && s.g.rest != []
    requires var r := s.g.rest[0]; r in s.mark && r in s.objs && (s.objs[r].Thread? ==> Closable(s.(g := s.g.(rest := s.g.rest[1..])), r))
    ensures var r := s.g.rest[0]; var s1 := s.(g := s.g.(rest := s.g.rest[1..]));
            SweepRootHead(s) ==
            if s.mark[r].color != White(!s.g.cur) || s.mark[r].fixed then
              s.(mark := s.mark[r := s.mark[r].(color := White(s.g.cur))], g := s1.g.(swept := s.g.swept + [r]))
            else FreeObj(s1, r)
  {
    hide Sweepable, Closable, FreeObj;
  }

  lemma SweepableHead(s: State)
    requires Sweepable(s) && s.g.rest != []
    ensures var r := s.g.rest[0];
            && s.mark.Keys == s.objs.Keys && r in s.objs
            && (s.objs[r].Thread? ==> Chain(s, s.objs[r].open))
            && (s.objs[r].Thread? ==> Closable(s.(g := s.g.(rest := s.g.rest[1..])), r))
  {
    var r := s.g.rest[0];
    assert r in s.g.rest;
    if s.objs[r].Thread? {
      assert OpenList(s, r);
      OpenChain(s, r);
      OpenListsFrame(s, s.(g := s.g.(rest := s.g.rest[1..])));
    }
  }

  /** The thread itself is not on its list of open upvalues. */
  lemma SweptHead(s: State, r: Ref)
    requires r in s.objs && s.objs[r].Thread? && Chain(s, s.objs[r].open)
    ensures var t := SweepChain(s, s.objs[r].open); r in t.objs && t.objs[r] == s.objs[r]
  {
    hide Distinct, Strings;
    SweepChainSpec(s, s.objs[r].open);
    assert r !in Elements(s.objs[r].open);
  }

  lemma BucketStrings(s: State, i: nat)
    requires StringTable(s) && i < |s.g.strt|
    ensures forall r <- s.g.strt[i] :: r in s.objs && s.objs[r].Str?
  {}

  /** What `luaS_newlstr` returns is the only string with these bytes. */
  lemma InternResult(s: State, bytes: seq<bv8>, r: Ref)
    requires Inv(s) && StringTable(s) && r !in s.objs && s.mark.Keys == s.objs.Keys
    ensures var q := Lookup(s, s.g.strt[StringHash.Bucket(bytes, |s.g.strt|)], bytes);
            var t := Intern(s, bytes, r);
            var x := if q.Some? then q.value else r;
            && x in t.objs && t.objs[x] == Str(bytes)
            && Alive(t, x) && forall y <- t.objs :: t.objs[y] == Str(bytes) ==> y == x
  {
    hide Lookup, Resize;
    InternInv(s, bytes, r);
    var q := Lookup(s, s.g.strt[StringHash.Bucket(bytes, |s.g.strt|)], bytes);
    var t := Intern(s, bytes, r);
    if q.None? {
      AddStringTable(s, bytes, r);
      var u := AddString(s, bytes, r);
      StringTableNonEmpty(u);
      ResizeTable(u, |u.g.strt| * 2);
    }
    Aspects(t, {});
    InHand(t);
    OneString(t);
  }

  /** What C code holds is not dead, so that no sweep can free it. */
  lemma InHand(s: State)
    requires LiveHeap(s)
    ensures forall r <- s.g.tmp :: Alive(s, r)
  {}

  lemma FoundInTable(s: State, chain: seq<Ref>, bytes: seq<bv8>)
    ensures var q := Lookup(s, chain, bytes); q.Some? ==> q.value in s.objs
  {}

  lemma OneString(s: State)
    requires StringTable(s)
    ensures forall x, y :: x in s.objs && y in s.objs && s.objs[x].Str? && s.objs[y] == s.objs[x] ==> x == y
  {}

  lemma CapturedOpen(s: State, level: nat, r: Ref)
    requires Inv(s) && Capturable(s) && r !in s.objs
    ensures var t := FindUpval(s, level, r); var u := Captured(s, level, r);
            u in t.objs && t.objs[u] == Open(s.g.running, level)
  {
    hide RootListBut, StringTable, PhaseInv, LiveHeap, Colors;
    Aspects(s, {});
    assert OpenList(s, s.g.running);
  }

  /** The string that looking at `v` marks. */
  ghost function StringOf(objs: map<Ref, Obj>, v: Value): set<Ref> {
    if v.Gc? && v.ref in objs && objs[v.ref].Str? then {v.ref} else {}
  }

  lemma MarkNothing(m: map<Ref, Mark>)
    ensures MarkStrings(m, {}) == m
  {}

  lemma MarkTwice(m: map<Ref, Mark>, a: set<Ref>, b: set<Ref>)
    ensures MarkStrings(MarkStrings(m, a), b) == MarkStrings(m, a + b)
  {}

  /** Marking strings does not change what is cleared. */
  lemma ClearedStrings(s: State, seen: set<Ref>, v: Value)
    requires s.mark.Keys == s.objs.Keys && forall r <- seen :: r in s.objs && s.objs[r].Str?
    ensures Cleared(s.(mark := MarkStrings(s.mark, seen)), v) == Cleared(s, v)
  {}

  ghost function ValueStrings(s: State, vs: seq<Value>): set<Ref> {
    set r | r in s.objs && s.objs[r].Str? && Gc(r) in vs
  }

  lemma ValueStringsCons(s: State, v: Value, vs: seq<Value>)
    ensures ValueStrings(s, [v] + vs) == ValueStrings(s, vs) + StringOf(s.objs, v)
  {}

  /** The strings marked so far do not matter to the nodes. */
  lemma ClearNodesSame(s: State, t: State, seen: set<Ref>, ns: seq<Node>)
    requires s.mark.Keys == s.objs.Keys && forall r <- seen :: r in s.objs && s.objs[r].Str?
    requires t == s.(mark := MarkStrings(s.mark, seen))
    ensures ClearNodes(t, ns) == ClearNodes(s, ns) && NodeStrings(t, ns) == NodeStrings(s, ns)
  {
    hide MarkStrings;
    forall v ensures Cleared(t, v) == Cleared(s, v) { ClearedStrings(s, seen, v); }
  }

  ghost function NodeStrings(s: State, ns: seq<Node>): set<Ref> {
    set r | r in s.objs && s.objs[r].Str? &&
            exists n <- ns :: !n.val.Nil? && (Gc(r) == n.key || (Gc(r) == n.val && !Cleared(s, n.key)))
  }

  lemma NodeStringsCons(s: State, n: Node, ns: seq<Node>)
    ensures NodeStrings(s, [n] + ns) == NodeStrings(s, ns) +
      (if n.val.Nil? then {} else StringOf(s.objs, n.key) + (if Cleared(s, n.key) then {} else StringOf(s.objs, n.val)))
  {
    assert forall x :: x in [n] + ns <==> x == n || x in ns;
  }

  lemma SeenAll(s: State, o: Obj, vw: bool, seen: set<Ref>)
    requires o.Table?
    requires seen == (if vw then ValueStrings(s, o.arr) else {}) + NodeStrings(s, o.nodes)
    ensures seen == TestedStrings(s, o, vw)
  {}

  lemma RequeuedWeak(s: State)
    requires ListsGray(s) && s.gray == []
    ensures ListsGray(s.(gray := s.weak, weak := [])) && ListsGray(s.(gray := s.grayagain, grayagain := []))
  {}

  lemma WeakAreTables(s: State)
    requires ListsGray(s)
    ensures forall h <- s.weak :: h in s.objs && s.objs[h].Table?
  {}

  lemma MarkAllNone(s: State)
    requires s.mark.Keys == s.objs.Keys
    ensures MarkAll(s, []) == s
  {}

  lemma {:induction false} MarkAllAppend(s: State, a: seq<Value>, b: seq<Value>)
    requires s.mark.Keys == s.objs.Keys
    ensures MarkAll(s, a).mark.Keys == MarkAll(s, a).objs.Keys
    ensures MarkAll(s, a + b) == MarkAll(MarkAll(s, a), b)
    decreases |a|
  {
    hide Extends, ReallyMark;
    ExtendsFrame(s, MarkAll(s, a));
    if a == [] {
      assert a + b == b;
    } else {
      ExtendsFrame(s, MarkValue(s, a[0]));
      assert (a + b)[1..] == a[1..] + b;
      MarkAllAppend(MarkValue(s, a[0]), a[1..], b);
    }
  }

  lemma InitialInv(s: State)
    requires s.objs == map[0 := Thread(Gc(1), [Nil], []), 1 := Table(None, (false, false), [], []), 2 := Table(None, (false, false), [], [])]
    requires s.mark == map[0 := Mark(White(false), true, false, false), 1 := Mark(White(false), false, false, false), 2 := Mark(White(false), false, false, false)]
    requires !s.g.cur && s.g.phase == Pause && s.g.swept == [] && s.g.rest == [2, 1, 0]
    requires s.g.strt == seq(MIN_STRING_TABLE, _ => []) && s.g.nuse == 0 && s.g.uvhead == []
    requires s.g.main == 0 && s.g.running == 0 && s.g.registry == Gc(2) && s.g.tmp == {}
    requires forall m <- s.g.mts :: m == None
    ensures Inv(s)
  {
    InitialLists(s);
    InitialLive(s);
    InitialColors(s);
    hide Structure, LiveHeap, Colors;
    InitialAspects(s);
  }

  lemma InitialColors(s: State)
    requires s.objs == map[0 := Thread(Gc(1), [Nil], []), 1 := Table(None, (false, false), [], []), 2 := Table(None, (false, false), [], [])]
    requires s.mark == map[0 := Mark(White(false), true, false, false), 1 := Mark(White(false), false, false, false), 2 := Mark(White(false), false, false, false)]
    requires s.g.main == 0
    ensures Colors(s)
  {}

  /** In the first pause. */
  lemma InitialAspects(s: State)
    requires Structure(s) && LiveHeap(s) && Colors(s)
    requires s.mark.Keys == s.objs.Keys && forall r <- s.mark :: s.mark[r].color == White(s.g.cur)
    requires s.g.phase == Pause && s.g.swept == []
    ensures Inv(s)
  {
    hide RootListBut, OpenLists, StringTable, LiveHeap, Colors;
  }

  lemma InitialLists(s: State)
    requires s.objs == map[0 := Thread(Gc(1), [Nil], []), 1 := Table(None, (false, false), [], []), 2 := Table(None, (false, false), [], [])]
    requires s.g.swept == [] && s.g.rest == [2, 1, 0]
    requires s.g.strt == seq(MIN_STRING_TABLE, _ => []) && s.g.nuse == 0 && s.g.uvhead == []
    ensures Structure(s)
  {
    InitialStrings(s);
    hide StringTable;
    assert OpenLists(s);
    assert RootListBut(s, {});
  }

  lemma InitialStrings(s: State)
    requires forall r <- s.objs :: !s.objs[r].Str?
    requires s.g.strt == seq(MIN_STRING_TABLE, _ => []) && s.g.nuse == 0
    ensures StringTable(s)
  {
    assert Strings(s) == {};
  }

  lemma InitialLive(s: State)
    requires s.objs == map[0 := Thread(Gc(1), [Nil], []), 1 := Table(None, (false, false), [], []), 2 := Table(None, (false, false), [], [])]
    requires s.mark.Keys == s.objs.Keys && forall r <- s.mark :: s.mark[r].color == White(s.g.cur)
    requires s.g.main == 0 && s.g.running == 0 && s.g.registry == Gc(2) && s.g.tmp == {}
    requires forall m <- s.g.mts :: m == None
    ensures LiveHeap(s)
  {
    forall r <- s.objs ensures Alive(s, r) {}
    assert Refs(s, s.objs[0]) == [Gc(1), Nil];
    assert Refs(s, s.objs[1]) == [] && Refs(s, s.objs[2]) == [];
    assert Alive(s, 0) && Alive(s, 1) && Alive(s, 2);
    forall r <- s.objs ensures AllAlive(s, Refs(s, s.objs[r])) {
      assert r == 0 || r == 1 || r == 2;
    }
  }
}
