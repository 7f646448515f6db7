/** A collector step takes nothing from the program. */
module GcKeep {
  import opened GcHeap
  import opened GcMark
  import opened GcPropagate
  import opened GcAtomic
  import opened GcInvariant
  import opened GcBarrier
  import opened GcClose
  import opened GcSweep
  import opened GcSweepInv
  import opened GcStrings
  import opened GcMutator
  import opened GcWrites
  import opened GcCapture
  import opened GcMachine
  import opened GcSafety

  // ---- Strong reachability ------------------------------------------------

  ghost predicate StrongPath(s: State, p: seq<Ref>) {
    && p != [] && Root(s, p[0])
    && forall i :: 0 <= i < |p| - 1 ==> p[i] in s.objs && Gc(p[i + 1]) in StrongRefs(s, s.objs[p[i]])
  }

  /** Reachable without going through a weak entry. */
  ghost predicate StrongReachable(s: State, r: Ref) {
    exists p :: StrongPath(s, p) && p[|p| - 1] == r
  }

  lemma StrongIsReachable(s: State, r: Ref)
    requires StrongReachable(s, r)
    ensures Reachable(s, r)
  {
    var p :| StrongPath(s, p) && p[|p| - 1] == r;
    forall i | 0 <= i < |p| - 1 ensures Gc(p[i + 1]) in Refs(s, s.objs[p[i]]) {
      StrongSubset(s, s.objs[p[i]], Gc(p[i + 1]));
    }
    assert Path(s, p);
  }

  lemma StrongAlive(s: State, r: Ref)
    requires LiveHeap(s) && StrongReachable(s, r)
    ensures Alive(s, r)
  {
    StrongIsReachable(s, r);
    ReachableAlive(s, r);
  }

  lemma RootStrong(s: State, r: Ref)
    requires Root(s, r)
    ensures StrongReachable(s, r)
  {
    assert StrongPath(s, [r]);
    assert [r][|[r]| - 1] == r;
  }

  lemma StrongStep(s: State, r: Ref, q: Ref)
    requires StrongReachable(s, r) && r in s.objs && Gc(q) in StrongRefs(s, s.objs[r])
    ensures StrongReachable(s, q)
  {
    var p :| StrongPath(s, p) && p[|p| - 1] == r;
    var p' := p + [q];
    forall i | 0 <= i < |p'| - 1 ensures p'[i] in s.objs && Gc(p'[i + 1]) in StrongRefs(s, s.objs[p'[i]]) {
      if i < |p| - 1 { assert p'[i] == p[i] && p'[i + 1] == p[i + 1]; }
    }
    assert StrongPath(s, p') && p'[|p'| - 1] == q;
  }

  /** A set that holds the roots and is closed under strong references holds
      everything strongly reachable. */
  lemma {:induction false} StrongPathIn(s: State, p: seq<Ref>, m: iset<Ref>)
    requires StrongPath(s, p)
    requires forall r :: Root(s, r) ==> r in m
    requires forall r, q :: r in m && r in s.objs && Gc(q) in StrongRefs(s, s.objs[r]) ==> q in m
    ensures p[|p| - 1] in m
    decreases |p|
  {
    hide StrongRefs;
    if |p| > 1 {
      var q := p[..|p| - 1];
      forall i | 0 <= i < |q| - 1 ensures q[i] in s.objs && Gc(q[i + 1]) in StrongRefs(s, s.objs[q[i]]) {
        assert q[i] == p[i] && q[i + 1] == p[i + 1];
      }
      assert StrongPath(s, q);
      StrongPathIn(s, q, m);
      assert p[|p| - 2] == q[|q| - 1] && p[|p| - 1] == p[|p| - 2 + 1];
    }
  }

  // ---- Steps --------------------------------------------------------------

  /** A weak table after clearing: an entry has gone only if one of its objects
      is dead. */
  ghost predicate Emptied(t: State, o: Obj, p: Obj) {
    && o.Table? && p.Table? && p.mt == o.mt && p.mode == o.mode
    && |p.arr| == |o.arr| && |p.nodes| == |o.nodes|
    && (forall i :: 0 <= i < |o.arr| ==>
         p.arr[i] == o.arr[i] || (p.arr[i].Nil? && o.arr[i].Gc? && IsDead(t, o.arr[i].ref)))
    && (forall i :: 0 <= i < |o.nodes| ==>
         p.nodes[i] == o.nodes[i] ||
         (p.nodes[i].val.Nil? &&
          ((o.nodes[i].key.Gc? && IsDead(t, o.nodes[i].key.ref)) || (o.nodes[i].val.Gc? && IsDead(t, o.nodes[i].val.ref)))))
  }

  ghost predicate Intact(s: State, t: State, r: Ref) {
    && r in s.objs && r in t.objs
    && (SameContents(s, s.objs[r], t.objs[r]) || Emptied(t, s.objs[r], t.objs[r]))
  }

  lemma ContentsSame(s: State, r: Ref)
    requires r in s.objs
    ensures SameContents(s, s.objs[r], s.objs[r])
  {}

  /** Whatever the program holds on to is there after any collector step, with
      the same contents but for dead entries of weak tables. */
  lemma CollectorKeeps(s: State, r: Ref)
    requires Inv(s) && s.g.tmp == {} && StrongReachable(s, r)
    ensures Intact(s, SingleStep(s), r) && Alive(SingleStep(s), r)
  {
    hide LiveHeap, RootListBut, OpenLists, StringTable, PhaseInv, StrongReachable, Colors;
    Aspects(s, {});
    StrongAlive(s, r);
    ContentsSame(s, r);
    hide SameContents;
    SingleStepInv(s);
    match s.g.phase
    case Pause => KeepsMarks(s, r);
    case Propagate => if s.gray != [] { KeepsMarks(s, r); } else { KeepsAtomic(s, r); }
    case SweepString => KeepsBucket(s, r);
    case Sweep => KeepsSweep(s, r);
    case Finalize => {}
  }

  lemma KeepsMarks(s: State, r: Ref)
    requires Inv(s) && s.g.tmp == {} && Alive(s, r) && SameContents(s, s.objs[r], s.objs[r])
    requires s.g.phase == Pause || (s.g.phase == Propagate && s.gray != [])
    ensures Intact(s, SingleStep(s), r) && Alive(SingleStep(s), r)
  {
    hide LiveHeap, RootListBut, OpenLists, StringTable, Colors, SameContents;
    Aspects(s, {});
    var t := SingleStep(s);
    InvKeys(s);
    SingleStepInv(s);
    if s.g.phase == Pause {
      MarkRootSpec(s);
      ExtendsFrame(s.(gray := [], grayagain := [], weak := []), t.(g := s.g));
      MarkRootInv(s);
    } else {
      PropagateInv(s);
      PropagateStep(s);
      AfterLists(s, t);
    }
    InvKeys(t);
    assert t.objs == s.objs;
    hide SingleStep;
    Aspects(t, {});
    assert NoDead(t);
  }

  lemma KeepsBucket(s: State, r: Ref)
    requires Inv(s) && s.g.phase == SweepString && Alive(s, r) && SameContents(s, s.objs[r], s.objs[r])
    ensures Intact(s, SingleStep(s), r) && Alive(SingleStep(s), r)
  {
    hide LiveHeap, RootListBut, OpenLists, StringTable, Colors, SameContents, SweepChain;
    Aspects(s, {});
    BucketStart(s);
    var l := s.g.strt[s.g.sweepstr];
    SweepChainSpec(s, l);
    ColorsFixed(s);
    SweptAlive(s, SweepChain(s, l), Elements(l));
    SweptObjs(s, SweepChain(s, l), Elements(l));
    hide Swept;
  }

  lemma KeepsSweep(s: State, r: Ref)
    requires Inv(s) && s.g.phase == Sweep && Alive(s, r)
    ensures Intact(s, SingleStep(s), r) && Alive(SingleStep(s), r)
  {
    hide LiveHeap, RootListBut, OpenLists, StringTable, Colors, SameContents, SweepRoot;
    Aspects(s, {});
    SweepRootSweptTo(s, GC_SWEEP_MAX);
    var t := SweepRoot(s, GC_SWEEP_MAX);
    InvTable(t);
    CheckSizesFrame(t);
  }

  /** When marking ends, everything strongly reachable is marked. */
  lemma AtomicMarksStrong(s: State, r: Ref)
    requires Inv(s) && s.g.phase == Propagate && s.gray == [] && s.g.tmp == {} && StrongReachable(s, r)
    ensures ListsGray(s) && !IsWhite(AtomicMark(s), r)
  {
    hide LiveHeap, RootListBut, OpenLists, StringTable, PhaseInv, Colors, Refs, StrongRefs;
    Aspects(s, {});
    AtomicMarked(s);
    var t := AtomicMark(s);
    MarksFrame(s, t);
    var p :| StrongPath(s, p) && p[|p| - 1] == r;
    var m := iset x | !IsWhite(t, x);
    forall x, q | x in m && x in s.objs && Gc(q) in StrongRefs(s, s.objs[x]) ensures q in m {
      MarkedStrong(s, t, x, q);
    }
    forall x | Root(s, x) ensures x in m { RootMarked(s, t, x); }
    StrongPathIn(s, p, m);
  }

  lemma RootMarked(s: State, t: State, x: Ref)
    requires Root(s, x) && s.g.tmp == {}
    requires !IsWhite(t, s.g.main) && Marked(t, s.g.registry) && !IsWhite(t, s.g.running)
    requires forall m <- s.g.mts :: m.Some? ==> !IsWhite(t, m.value)
    ensures !IsWhite(t, x)
  {
    if Some(x) in s.g.mts { assert Some(x).Some?; }
  }

  lemma MarkedStrong(s: State, t: State, x: Ref, q: Ref)
    requires t.objs == s.objs && t.mark.Keys == t.objs.Keys && Scanned(t, {}) && t.gray == []
    requires x in s.objs && !IsWhite(t, x) && Gc(q) in StrongRefs(s, s.objs[x])
    ensures !IsWhite(t, q)
  {
    RefsSame(s, t, s.objs[x]);
    StrongSubset(s, s.objs[x], Gc(q));
    hide Refs, StrongRefs;
    assert Done(t, x);
    assert Marked(t, Gc(q));
  }

  /** Tables lose cleared entries only; nothing else changes in the atomic step. */
  lemma ClearOneEmptied(s: State, h: Ref, d: State)
    requires s.mark.Keys == s.objs.Keys && h in s.objs && s.objs[h].Table?
    requires forall r <- s.objs :: IsWhite(s, r) && !s.objs[r].Str? ==> IsDead(d, r)
    ensures Emptied(d, s.objs[h], ClearTable(s, h).objs[h])
  {
    var o, p := s.objs[h], ClearTable(s, h).objs[h];
    assert forall v :: Cleared(s, v) ==> v.Gc? && IsDead(d, v.ref);
    assert forall i :: 0 <= i < |o.nodes| ==> p.nodes[i] == ClearNode(s, o.nodes[i]);
  }

  lemma EmptiedTrans(d: State, o: Obj, p: Obj, q: Obj)
    requires Emptied(d, o, p) && Emptied(d, p, q)
    ensures Emptied(d, o, q)
  {
    forall i | 0 <= i < |o.nodes| && q.nodes[i] != o.nodes[i]
      ensures q.nodes[i].val.Nil? &&
              ((o.nodes[i].key.Gc? && IsDead(d, o.nodes[i].key.ref)) || (o.nodes[i].val.Gc? && IsDead(d, o.nodes[i].val.ref)))
    {
      if p.nodes[i] == o.nodes[i] { assert q.nodes[i] != p.nodes[i]; }
    }
  }

  lemma {:induction false} ClearTablesEmptied(s: State, l: seq<Ref>, r: Ref, d: State)
    requires s.mark.Keys == s.objs.Keys && r in s.objs
    requires forall h <- l :: h in s.objs && s.objs[h].Table?
    requires forall x <- s.objs :: IsWhite(s, x) && !s.objs[x].Str? ==> IsDead(d, x)
    ensures var t := ClearTables(s, l);
            r in t.objs && (t.objs[r] == s.objs[r] || Emptied(d, s.objs[r], t.objs[r]))
    decreases |l|
  {
    hide Emptied;
    if l != [] {
      var t := ClearTable(s, l[0]);
      ClearTableFrame(s, l[0]);
      assert r in t.objs && (t.objs[r] == s.objs[r] || r == l[0]);
      ClearOneEmptied(s, l[0], d);
      ClearedWhites(s, t, d);
      ClearTablesEmptied(t, l[1..], r, d);
      var u := ClearTables(t, l[1..]);
      if t.objs[r] != s.objs[r] && u.objs[r] != t.objs[r] {
        EmptiedTrans(d, s.objs[r], t.objs[r], u.objs[r]);
      }
    }
  }

  lemma ClearedWhites(s: State, t: State, d: State)
    requires ClearedFrom(s, t)
    requires forall x <- s.objs :: IsWhite(s, x) && !s.objs[x].Str? ==> IsDead(d, x)
    ensures t.mark.Keys == t.objs.Keys == s.objs.Keys
    ensures forall x <- s.objs :: s.objs[x].Table? ==> t.objs[x].Table?
    ensures forall x <- t.objs :: IsWhite(t, x) && !t.objs[x].Str? ==> IsDead(d, x)
  {
    hide Refs;
  }

  lemma AtomicFrame(s: State)
    requires ListsGray(s)
    ensures var t := AtomicMark(s); var u := ClearTables(t, t.weak); var v := Atomic(s);
            v.objs == u.objs && v.mark == u.mark && v.g.cur == !u.g.cur
  {}

  /** Marked in the end means alive after the flip; white non-strings are the
      dead. */
  lemma AtomicDead(s: State)
    requires Inv(s) && s.g.phase == Propagate && s.gray == []
    ensures ListsGray(s)
    ensures var t := AtomicMark(s);
            && t.objs == s.objs && t.mark.Keys == t.objs.Keys && ListsGray(t)
            && (forall r <- t.objs :: !IsWhite(t, r) ==> Alive(Atomic(s), r))
            && (forall r <- t.objs :: IsWhite(t, r) && !t.objs[r].Str? ==> IsDead(Atomic(s), r))
  {
    hide RootListBut, OpenLists, StringTable, Refs, StrongRefs, Later;
    Aspects(s, {});
    AtomicMarked(s);
    var t := AtomicMark(s);
    MarkStepInv(s, t);
    MarkedClearing(t);
    ClearTablesMarked(t, t.weak);
    var u := ClearTables(t, t.weak);
    AtomicFrame(s);
    ClearedRoots(t, u);
    ClearedDead(t, u);
    hide Clearing, ClearTables, Atomic, AtomicMark, ClearedFrom, LiveHeap, Colors, PhaseInv;
  }

  lemma ClearedDead(s: State, t: State)
    requires ClearedFrom(s, t) && NoDead(s)
    ensures forall r <- s.objs :: r in t.objs && r in t.mark
    ensures forall r <- s.objs :: !IsWhite(s, r) ==> !t.mark[r].color.White?
    ensures forall r <- s.objs :: IsWhite(s, r) && !s.objs[r].Str? ==> t.mark[r].color == White(s.g.cur)
    ensures t.g == s.g
  {
    hide Refs;
  }

  lemma KeepsAtomic(s: State, r: Ref)
    requires Inv(s) && s.g.phase == Propagate && s.gray == [] && s.g.tmp == {} && StrongReachable(s, r)
    requires Alive(s, r)
    ensures Intact(s, SingleStep(s), r) && Alive(SingleStep(s), r)
  {
    hide LiveHeap, RootListBut, OpenLists, StringTable, PhaseInv, StrongReachable, Colors, Emptied;
    Aspects(s, {});
    ContentsSame(s, r);
    AtomicMarksStrong(s, r);
    AtomicDead(s);
    var t := AtomicMark(s);
    ClearTablesEmptied(t, t.weak, r, Atomic(s));
    AtomicFrame(s);
    assert SingleStep(s) == Atomic(s);
    hide Atomic, AtomicMark, ClearTables, SingleStep;
  }
}
