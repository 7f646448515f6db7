/** The collector as a state machine: `singlestep`. */
module GcMachine {
  import opened GcHeap
  import opened GcPropagate
  import opened GcAtomic
  import opened GcInvariant
  import opened GcBarrier
  import opened GcClose
  import opened GcSweep
  import opened GcSweepInv
  import opened GcStrings
  import opened GcMutator
  import opened GcWrites
  import opened GcCapture

  const GC_SWEEP_MAX := 40

  // ---- singlestep ---------------------------------------------------------

  /** `sweeplist` over `rootgc`, at most `n` objects. */
  function SweepRoot(s: State, n: nat): (t: State)
    requires Inv(s) && s.g.phase == Sweep
    ensures Inv(t) && t.g.phase == Sweep
    decreases n
  {
    if n == 0 || s.g.rest == [] then s else
      SweepRootOneInv(s);
      SweepRootOnePhase(s);
      SweepRoot(SweepRootOne(s), n - 1)
  }

  /** The end of the sweep: shrink the string table, go on to finalizers. */
  function EndSweep(s: State): State
    requires StringTable(s)
  {
    var t := CheckSizes(s);
    t.(g := t.g.(phase := Finalize))
  }

  /** `singlestep`.  Userdata with finalizers are not modelled, so the finalize
      phase has nothing to call. */
  function SingleStep(s: State): State
    requires Inv(s)
  {
    match s.g.phase
    case Pause => InvKeys(s); MarkRoot(s)
    case Propagate =>
      if s.gray != [] then PropagateInv(s); PropagateMark(s)
      else InvLists(s); Atomic(s)
    case SweepString => SweepBucketInv(s); SweepBucket(s)
    case Sweep =>
      var t := SweepRoot(s, GC_SWEEP_MAX);
      InvTable(t);
      if t.g.rest == [] then EndSweep(t) else t
    case Finalize => s.(g := s.g.(phase := Pause))
  }

  lemma InvKeys(s: State)
    requires Inv(s)
    ensures s.mark.Keys == s.objs.Keys
  {
    hide LiveHeap, RootListBut, OpenLists, StringTable, PhaseInv;
    Aspects(s, {});
  }

  lemma InvLists(s: State)
    requires Inv(s) && s.g.phase == Propagate
    ensures ListsGray(s)
  {
    hide LiveHeap, RootListBut, OpenLists, StringTable;
    Aspects(s, {});
  }

  lemma InvTable(s: State)
    requires Inv(s)
    ensures StringTable(s)
  {
    hide LiveHeap, RootListBut, OpenLists, StringTable, PhaseInv;
    Aspects(s, {});
  }

  // ---- What sweeping keeps ------------------------------------------------

  /** The same contents; an open upvalue may have been closed, and a thread may
      have lost entries of its list of open upvalues. */
  predicate SameContents(s: State, o: Obj, p: Obj) {
    if o.Thread? then p.Thread? && p.gt == o.gt && p.stack == o.stack
    else if o.Open? then p == o || p == Closed(UpvalValue(s, o))
    else p == o
  }

  /** `t` is `s` with dead objects freed. */
  ghost predicate SweptTo(s: State, t: State) {
    match t case State(_, _, _, _, _, _) =>
    && (forall r :: Alive(s, r) ==> Alive(t, r))
    && (forall r <- t.objs :: r in s.objs && SameContents(s, s.objs[r], t.objs[r]))
    && (forall r <- t.objs :: r in s.mark && r in t.mark && t.mark[r].fixed == s.mark[r].fixed)
    && (forall r <- s.objs :: r in s.mark && s.mark[r].fixed ==> r in t.objs)
    && (forall r <- t.objs :: IsDead(s, r) ==> IsDead(t, r) || t.mark[r].fixed)
    && t.g.cur == s.g.cur && t.g.main == s.g.main && t.g.running == s.g.running
    && t.g.registry == s.g.registry && t.g.mts == s.g.mts && t.g.tmp == s.g.tmp
  }

  lemma SweptToTrans(s: State, t: State, u: State)
    requires SweptTo(s, t) && SweptTo(t, u) && OpenLists(t)
    ensures SweptTo(s, u)
  {
    forall r <- u.objs ensures r in s.objs && SameContents(s, s.objs[r], u.objs[r]) {
      SameContentsTrans(s, t, u, r);
    }
    hide SameContents, OpenLists;
  }

  lemma SameContentsTrans(s: State, t: State, u: State, r: Ref)
    requires SweptTo(s, t) && SweptTo(t, u) && OpenLists(t) && r in u.objs
    ensures r in s.objs && SameContents(s, s.objs[r], u.objs[r])
  {
    hide OpenList;
    if s.objs[r].Open? && t.objs[r].Open? {
      var th := t.objs[r].thread;
      assert t.objs[th].Thread? && s.objs[th].Thread? && t.objs[th].stack == s.objs[th].stack;
    }
  }

  lemma SweptToSelf(s: State, t: State)
    requires t.objs == s.objs && t.mark == s.mark && s.mark.Keys == s.objs.Keys
    requires t.g.cur == s.g.cur && t.g.main == s.g.main && t.g.running == s.g.running
    requires t.g.registry == s.g.registry && t.g.mts == s.g.mts && t.g.tmp == s.g.tmp
    ensures SweptTo(s, t)
  {}

  lemma ChainSweptTo(s: State, t: State, l: set<Ref>)
    requires Swept(s, t, l) && FixedOk(s)
    ensures SweptTo(s, t)
  {
    SweptAlive(s, t, l);
  }

  lemma CloseSweptTo(s: State, t: State, th: Ref)
    requires ClosedOne(s, t, th) && Colors(s)
    requires forall r :: Alive(s, r) ==> Alive(t, r)
    requires forall r <- t.objs :: IsDead(s, r) ==> IsDead(t, r)
    requires forall r <- t.mark :: r in s.mark && t.mark[r].fixed == s.mark[r].fixed
    ensures SweptTo(s, t)
  {
    assert OpenList(s, th);
    hide OpenLists, OpenList;
  }

  lemma {:induction false} CloseUpvalsSweptTo(s: State, th: Ref, limbo: set<Ref>)
    requires InvBut(s, limbo) && th in s.objs && s.objs[th].Thread? && s.g.phase == Sweep
    requires forall x <- limbo :: x in s.objs && Rooted(s.objs[x])
    ensures Closable(s, th) && SweptTo(s, CloseUpvals(s, th, 0))
    decreases |s.objs[th].open|
  {
    hide LiveHeap, StringTable, PhaseInv, RootListBut, CloseOne;
    Aspects(s, limbo);
    assert OpenList(s, th);
    ColorsKeys(s);
    if s.objs[th].open == [] {
      SweptToSelf(s, s);
    } else {
      var t := CloseOne(s, th);
      CloseOneInv(s, th, limbo);
      CloseOneClosable(s, t, th);
      CloseOneMarks(s, th);
      CloseAlive(s, t, th);
      CloseShapes(s, t, th);
      CloseSweptTo(s, t, th);
      hide ClosedOne, MarksClosed, Colors, OpenList, SweptTo;
      CloseUpvalsSweptTo(t, th, limbo);
      SweptToTrans(s, t, CloseUpvals(t, th, 0));
    }
  }

  lemma FreeSweptTo(s: State, r: Ref)
    requires r in s.objs && IsDead(s, r) && s.mark.Keys == s.objs.Keys && !s.mark[r].fixed
    ensures SweptTo(s, FreeLeaf(s, r))
  {}

  lemma SweptFixed(s: State, t: State, r: Ref)
    requires SweptTo(s, t) && r in t.objs
    ensures r in s.mark && r in t.mark && t.mark[r].fixed == s.mark[r].fixed
  {}

  /** Freeing a dead thread, once it is off the list. */
  lemma ThreadSweptTo(s: State, r: Ref)
    requires InvBut(s, {r}) && s.g.phase == Sweep && r in s.objs && s.objs[r].Thread?
    requires IsDead(s, r) && !s.mark[r].fixed
    ensures Closable(s, r) && SweptTo(s, FreeObj(s, r)) && FreeObj(s, r).g.phase == Sweep
  {
    hide LiveHeap, StringTable, RootListBut, PhaseInv, SweptTo;
    Aspects(s, {r});
    CloseUpvalsSweptTo(s, r, {r});
    CloseUpvalsThread(s, r, r);
    CloseUpvalsInv(s, r, 0, {r});
    var t := CloseUpvals(s, r, 0);
    Aspects(t, {r});
    ColorsKeys(t);
    SweptFixed(s, t, r);
    FreeSweptTo(t, r);
    hide OpenLists, Colors;
    SweptToTransFree(s, t, r);
  }

  lemma SweptToTransFree(s: State, t: State, r: Ref)
    requires SweptTo(s, t) && OpenLists(t) && r in t.objs && SweptTo(t, FreeLeaf(t, r))
    ensures SweptTo(s, FreeLeaf(t, r))
  {
    hide SweptTo, OpenLists;
    SweptToTrans(s, t, FreeLeaf(t, r));
  }

  lemma DeadSweptTo(s: State, r: Ref)
    requires Inv(s) && s.g.phase == Sweep && s.g.rest != [] && r == s.g.rest[0]
    requires r in s.objs && !Survives(s, r)
    ensures var s1 := s.(g := s.g.(rest := s.g.rest[1..]));
            (s.objs[r].Thread? ==> Closable(s1, r)) && SweptTo(s, FreeObj(s1, r)) && FreeObj(s1, r).g.phase == Sweep
  {
    hide LiveHeap, StringTable, RootListBut, PhaseInv, SweptTo;
    Aspects(s, {});
    var s1 := s.(g := s.g.(rest := s.g.rest[1..]));
    InvKeys(s);
    Unlink(s);
    SweptToSelf(s, s1);
    assert IsDead(s1, r) && !s1.mark[r].fixed && s1.mark.Keys == s1.objs.Keys;
    if s.objs[r].Thread? {
      ThreadSweptTo(s1, r);
    } else {
      FreeSweptTo(s1, r);
    }
    hide OpenLists, Colors;
    SweptFirst(s, s1, FreeObj(s1, r));
  }

  lemma SweptFirst(s: State, t: State, u: State)
    requires t.objs == s.objs && t.mark == s.mark && t.g == s.g.(rest := t.g.rest) && SweptTo(t, u)
    ensures SweptTo(s, u)
  {
    forall r ensures Alive(s, r) <==> Alive(t, r) {}
  }

  lemma HeadSweptTo(s: State)
    requires Inv(s) && s.g.phase == Sweep && s.g.rest != [] && Sweepable(s)
    ensures SweptTo(s, SweepRootHead(s)) && SweepRootHead(s).g.phase == Sweep
  {
    hide LiveHeap, StringTable, RootListBut, OpenLists, FreeObj;
    Aspects(s, {});
    var r := s.g.rest[0];
    InvSweepable(s);
    assert r in s.objs;
    InvKeys(s);
    if Survives(s, r) {
      var t := SweepRootHead(s);
      SurvivorAlive(s, r);
    } else {
      DeadSweptTo(s, r);
    }
  }

  lemma SurvivorAlive(s: State, r: Ref)
    requires Inv(s) && r in s.objs && r in s.mark && Survives(s, r) && Rooted(s.objs[r])
    ensures Alive(s, r)
  {
    hide StringTable, RootListBut, OpenLists, PhaseInv;
    Aspects(s, {});
  }

  lemma OpenSweptTo(s: State, th: Ref)
    requires Inv(s) && s.g.phase == Sweep && th in s.objs && s.objs[th].Thread?
    requires Chain(s, s.objs[th].open)
    ensures SweptTo(s, SweepOpen(s, th))
  {
    hide LiveHeap, StringTable, RootListBut, OpenLists, Swept, SweepChain, Kept, Colors;
    Aspects(s, {});
    SweepOpenShape(s, th);
    ColorsFixed(s);
    var l := s.objs[th].open;
    var m := SweepChain(s, l);
    ChainSweptTo(s, m, Elements(l));
    SweptThread(s, m, Elements(l), th);
    ListSweptTo(s, m, SweepOpen(s, th), th);
  }

  /** The list of open upvalues of a thread is not part of its contents. */
  lemma ListSweptTo(s: State, m: State, t: State, th: Ref)
    requires SweptTo(s, m) && th in s.objs && s.objs[th].Thread? && th in m.objs && m.objs[th] == s.objs[th]
    requires th in t.objs && t.objs[th].Thread? && t == m.(objs := m.objs[th := s.objs[th].(open := t.objs[th].open)])
    ensures SweptTo(s, t)
  {
    assert forall r :: Alive(m, r) <==> Alive(t, r);
  }

  lemma SweptThread(s: State, m: State, l: set<Ref>, th: Ref)
    requires Swept(s, m, l) && th in s.objs && th !in l
    ensures th in m.objs && m.objs[th] == s.objs[th]
  {}

  lemma SweepRootOneSweptTo(s: State)
    requires Inv(s) && s.g.phase == Sweep && s.g.rest != [] && Sweepable(s)
    ensures SweptTo(s, SweepRootOne(s)) && SweepRootOne(s).g.phase == Sweep
  {
    hide LiveHeap, StringTable, RootListBut, SweepOpen, SweepRootHead, SweptTo, PhaseInv;
    Aspects(s, {});
    InvSweepable(s);
    var r := s.g.rest[0];
    assert r in s.g.rest;
    if s.objs[r].Thread? {
      SweepOpenInv(s, r);
      OpenSweptTo(s, r);
      var t := SweepOpen(s, r);
      InvSweepable(t);
      HeadSweptTo(t);
      assert OpenLists(t);
      hide OpenLists;
      SweptToTrans(s, t, SweepRootHead(t));
    } else {
      HeadSweptTo(s);
    }
  }

  lemma SweepRootOnePhase(s: State)
    requires Inv(s) && s.g.phase == Sweep && s.g.rest != [] && Sweepable(s)
    ensures SweepRootOne(s).g.phase == Sweep
  {
    Aspects(s, {});
    SweepRootOneSweptTo(s);
  }

  lemma {:induction false} SweepRootSweptTo(s: State, n: nat)
    requires Inv(s) && s.g.phase == Sweep
    ensures SweptTo(s, SweepRoot(s, n))
    decreases n
  {
    hide LiveHeap, StringTable, RootListBut, SweepRootOne, SweptTo, PhaseInv;
    Aspects(s, {});
    if n == 0 || s.g.rest == [] {
      InvKeys(s);
      SweptToSelf(s, s);
    } else {
      InvSweepable(s);
      SweepRootOneInv(s);
      SweepRootOneSweptTo(s);
      var t := SweepRootOne(s);
      SweepRootSweptTo(t, n - 1);
      Aspects(t, {});
      hide OpenLists;
      SweptToTrans(s, t, SweepRoot(t, n - 1));
    }
  }

  // ---- Every step keeps the invariant -------------------------------------

  lemma EndSweepInv(s: State)
    requires Inv(s) && StringTable(s) && s.g.phase == Sweep && s.g.rest == []
    ensures Inv(EndSweep(s))
  {
    hide LiveHeap, StringTable, OpenLists, Colors;
    Aspects(s, {});
    var t := CheckSizes(s);
    StringTableNonEmpty(s);
    if t != s { ResizeInv(s, |s.g.strt| / 2); }
    CheckSizesFrame(s);
    Aspects(t, {});
    AllSwept(t);
    RegistersOnly(t, EndSweep(s));
    assert SameStrings(t, EndSweep(s));
    StringTableSame(t, EndSweep(s));
  }

  lemma CheckSizesFrame(s: State)
    requires StringTable(s)
    ensures CheckSizes(s) == s.(g := s.g.(strt := CheckSizes(s).g.strt))
  {
    StringTableNonEmpty(s);
    if s.g.nuse < |s.g.strt| / 4 && |s.g.strt| > MIN_STRING_TABLE * 2 {
      ResizeTable(s, |s.g.strt| / 2);
    }
  }

  /** When nothing is left to sweep every object has the current white. */
  lemma AllSwept(s: State)
    requires Inv(s) && s.g.phase == Sweep && s.g.rest == []
    ensures AllWhite(s)
  {
    hide LiveHeap, StringTable;
    Aspects(s, {});
    forall r <- s.objs ensures CurWhite(s, r) {
      if s.objs[r].Open? {
        assert s.objs[s.objs[r].thread].Thread?;
      }
    }
  }

  lemma PauseInv(s: State)
    requires Inv(s) && s.g.phase == Finalize
    ensures Inv(s.(g := s.g.(phase := Pause)))
  {
    hide LiveHeap, StringTable, OpenLists, Colors;
    Aspects(s, {});
    var t := s.(g := s.g.(phase := Pause));
    RegistersOnly(s, t);
    assert SameStrings(s, t);
    StringTableSame(s, t);
  }

  lemma SingleStepInv(s: State)
    requires Inv(s) && s.g.tmp == {}
    ensures Inv(SingleStep(s))
  {
    hide LiveHeap, StringTable, OpenLists, RootListBut, Colors, PhaseInv;
    Aspects(s, {});
    match s.g.phase
    case Pause => InvKeys(s); MarkRootInv(s);
    case Propagate => if s.gray != [] { PropagateInv(s); } else { AtomicInv(s); }
    case SweepString => SweepBucketInv(s);
    case Sweep =>
      var t := SweepRoot(s, GC_SWEEP_MAX);
      Aspects(t, {});
      if t.g.rest == [] { EndSweepInv(t); }
    case Finalize => PauseInv(s);
  }
}
