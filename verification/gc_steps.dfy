/** What a step of the collector does to its registers: the phases in their order, when
    the whites change places, which chain is swept, and when the string table shrinks. */
module GcSteps {
  import opened GcHeap
  import opened GcMark
  import opened GcPropagate
  import opened GcAtomic
  import opened GcInvariant
  import opened GcBarrier
  import opened GcClose
  import opened GcSweep
  import opened GcSweepInv
  import opened GcStrings
  import opened GcMachine
  import opened GcExact
  import opened GcEffects

  /** The string is not dead, or it is fixed. */
  ghost predicate Stays(s: State, r: Ref) {
    r in s.mark && (s.mark[r].color == White(!s.g.cur) ==> s.mark[r].fixed)
  }

  /** One chain has lost its dead strings, and the others are as they were. */
  ghost predicate ChainSwept(s: State, t: State, b: nat) {
    && b < |s.g.strt| == |t.g.strt|
    && (forall c: nat :: c < |s.g.strt| && c != b ==> t.g.strt[c] == s.g.strt[c])
    && (forall r :: r in t.g.strt[b] <==> r in s.g.strt[b] && Stays(s, r))
    && (forall r :: r in t.objs <==> r in s.objs && (r in s.g.strt[b] ==> Stays(s, r)))
    && (forall r <- t.objs :: r in s.objs && t.objs[r] == s.objs[r])
  }

  /** `t` is what the collector's step makes of the registers of `s`. */
  ghost predicate Stepped(s: State, t: State) {
    match s.g.phase
    case Pause => t.g == s.g.(phase := Propagate) && t.objs == s.objs
    case Propagate =>
      if s.gray != [] then t.g == s.g && t.objs == s.objs
      else
        && t.g == s.g.(phase := SweepString, cur := !s.g.cur, sweepstr := 0, swept := [], rest := s.g.swept + s.g.rest)
        && t.objs.Keys == s.objs.Keys
    case SweepString =>
      && ChainSwept(s, t, s.g.sweepstr)
      && t.g == s.g.(phase := if s.g.sweepstr == |s.g.strt| - 1 then Sweep else SweepString,
                     sweepstr := s.g.sweepstr + 1, strt := t.g.strt, nuse := t.g.nuse, uvhead := t.g.uvhead)
    case Sweep =>
      && t.g.phase == (if t.g.rest == [] then Finalize else Sweep)
      && |t.g.strt| == (if t.g.rest == [] && t.g.nuse < |s.g.strt| / 4 && |s.g.strt| > 64 then |s.g.strt| / 2 else |s.g.strt|)
      && t.g == s.g.(phase := t.g.phase, strt := t.g.strt, nuse := t.g.nuse, swept := t.g.swept, rest := t.g.rest, uvhead := t.g.uvhead)
    case Finalize => t == s.(g := s.g.(phase := Pause))
  }

  lemma StepRegisters(s: State)
    requires Inv(s)
    ensures Stepped(s, SingleStep(s))
  {
    hide Inv, MarkRoot, PropagateMark, Atomic, SweepBucket, SweepRoot, EndSweep;
    match s.g.phase
    case Pause => InvKeys(s); RootRegisters(s);
    case Propagate => if s.gray != [] { MarkRegisters(s); } else { AtomicRegisters(s); }
    case SweepString => BucketRegisters(s);
    case Sweep =>
      var t := SweepRoot(s, GC_SWEEP_MAX);
      InvTable(t);
      RootSweepRegisters(s, GC_SWEEP_MAX);
      if t.g.rest == [] { EndRegisters(t); }
    case Finalize =>
  }

  lemma RootRegisters(s: State)
    requires s.mark.Keys == s.objs.Keys
    ensures MarkRoot(s).g == s.g.(phase := Propagate) && MarkRoot(s).objs == s.objs
  {
    MarkRootSpec(s);
    hide MarkRoot, Handled, Grown;
  }

  lemma MarkRegisters(s: State)
    requires Inv(s) && s.g.phase == Propagate && s.gray != []
    ensures Ready(s)
    ensures PropagateMark(s).g == s.g && PropagateMark(s).objs == s.objs
  {
    PropagateInv(s);
    PropagateSpec(s);
    hide PropagateMark, Inv, Refs;
  }

  lemma AtomicRegisters(s: State)
    requires Inv(s) && s.g.phase == Propagate && s.gray == []
    ensures ListsGray(s)
    ensures var t := Atomic(s);
            && t.g == s.g.(phase := SweepString, cur := !s.g.cur, sweepstr := 0, swept := [], rest := s.g.swept + s.g.rest)
            && t.objs.Keys == s.objs.Keys
  {
    InvLists(s);
    AtomicMarkGlobals(s);
    AtomicObjs(s);
  }

  lemma AtomicMarkGlobals(s: State)
    requires Inv(s) && s.g.phase == Propagate && s.gray == [] && ListsGray(s)
    ensures AtomicMark(s).g == s.g && ClearTables(AtomicMark(s), AtomicMark(s).weak).g == s.g
  {
    hide LiveHeap, RootListBut, OpenLists, StringTable, PhaseInv, Refs, StrongRefs;
    Aspects(s, {});
    InvKeys(s);
    AtomicMarked(s);
    var t := AtomicMark(s);
    MarkedClearing(t);
    ClearTablesMarked(t, t.weak);
    hide ClearTables, AtomicMark, Clearing;
  }

  lemma BucketRegisters(s: State)
    requires Inv(s) && s.g.phase == SweepString
    ensures s.g.sweepstr < |s.g.strt| && Chain(s, s.g.strt[s.g.sweepstr])
    ensures Stepped(s, SweepBucket(s))
  {
    hide Inv;
    SweepBucketInv(s);
    var b := s.g.sweepstr;
    var l := s.g.strt[b];
    SweepChainSpec(s, l);
    var t := SweepChain(s, l);
    hide SweepChain, Kept, Strings;
    forall r ensures r in Elements(l) <==> r in l {}
  }

  lemma {:induction false} RootSweepRegisters(s: State, n: nat)
    requires Inv(s) && s.g.phase == Sweep
    ensures var t := SweepRoot(s, n);
            t.g == s.g.(nuse := t.g.nuse, swept := t.g.swept, rest := t.g.rest, uvhead := t.g.uvhead)
    decreases n
  {
    hide Inv, SweepRootOne;
    if n > 0 && s.g.rest != [] {
      SweepRootOneInv(s);
      SweepRootOnePhase(s);
      OneRegisters(s);
      RootSweepRegisters(SweepRootOne(s), n - 1);
    }
  }

  lemma OneRegisters(s: State)
    requires Inv(s) && s.g.phase == Sweep && s.g.rest != [] && Sweepable(s)
    ensures var t := SweepRootOne(s);
            t.g == s.g.(nuse := t.g.nuse, swept := t.g.swept, rest := t.g.rest, uvhead := t.g.uvhead)
  {
    hide Inv;
    var r := s.g.rest[0];
    assert r in s.g.rest;
    if s.objs[r].Thread? {
      assert OpenList(s, r);
      OpenChain(s, r);
      SweepChainSpec(s, s.objs[r].open);
      SweepOpenSweepable(s, r);
      HeadRegisters(SweepOpen(s, r));
    } else {
      HeadRegisters(s);
    }
    hide SweepRootHead, SweepChain, Kept, Elements, OpenLists;
  }

  lemma HeadRegisters(s: State)
    requires Sweepable(s) && s.g.rest != []
    ensures var t := SweepRootHead(s);
            t.g == s.g.(nuse := t.g.nuse, swept := t.g.swept, rest := t.g.rest, uvhead := t.g.uvhead)
  {
    var r := s.g.rest[0];
    assert r in s.g.rest;
    var s1 := s.(g := s.g.(rest := s.g.rest[1..]));
    if !Survives(s, r) {
      assert OpenLists(s1) by { OpenListsFrame(s, s1); }
      if s.objs[r].Thread? { CloseRelinks(s1, r, 0); }
    }
    hide CloseUpvals, OpenLists, Without;
  }

  lemma EndRegisters(s: State)
    requires StringTable(s) && s.g.phase == Sweep
    ensures var t := EndSweep(s);
            && t.g == s.g.(phase := Finalize, strt := t.g.strt)
            && |t.g.strt| == if s.g.nuse < |s.g.strt| / 4 && |s.g.strt| > 64 then |s.g.strt| / 2 else |s.g.strt|
  {
    if s.g.nuse < |s.g.strt| / 4 && |s.g.strt| > 64 { ResizeSize(s, |s.g.strt| / 2); }
    hide Resize, StringTable;
  }
}
