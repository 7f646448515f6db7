/** A full collection terminates and is exact: the objects that survive are the
    fixed ones, those strongly reachable, and the strings that surviving weak
    tables hold. */
module GcFull {
  import opened GcHeap
  import opened GcMark
  import opened GcPropagate
  import opened GcAtomic
  import opened GcInvariant
  import opened GcBarrier
  import opened GcClose
  import opened GcSweep
  import opened GcSweepInv
  import opened GcStrings
  import opened GcMutator
  import opened GcMachine
  import opened GcSafety
  import opened GcKeep

  // ---- Termination --------------------------------------------------------

  function Rank(p: Phase): nat {
    match p case Pause => 0 case Finalize => 1 case Sweep => 2 case SweepString => 3 case Propagate => 4
  }

  function Opens(s: State): set<Ref> {
    set r | r in s.objs && s.objs[r].Open?
  }

  /** How much is left of the current phase. */
  function Work(s: State): int {
    match s.g.phase
    case Propagate => |s.gray|
    case SweepString => |s.g.strt| - s.g.sweepstr
    case Sweep => |s.g.rest| + |Opens(s)|
    case _ => 0
  }

  function Unmarked(s: State): set<Ref> {
    if s.g.phase == Propagate then Whites(s) else {}
  }

  ghost predicate Less(s: State, t: State) {
    || Rank(t.g.phase) < Rank(s.g.phase)
    || (Rank(t.g.phase) == Rank(s.g.phase) &&
        (Unmarked(t) < Unmarked(s) || (Unmarked(t) == Unmarked(s) && 0 <= Work(t) < Work(s))))
  }

  lemma OpensSwept(s: State, t: State)
    requires SweptTo(s, t)
    ensures Opens(t) <= Opens(s)
  {}

  lemma CountSubset(a: set<Ref>, b: set<Ref>)
    requires a <= b
    ensures |a| <= |b|
  {
    assert b == a + (b - a);
  }

  /** Each upvalue closed adds at most one object to the unswept part. */
  lemma {:induction false} CloseCount(s: State, th: Ref, limbo: set<Ref>)
    requires InvBut(s, limbo) && th in s.objs && s.objs[th].Thread? && s.g.phase == Sweep
    requires forall x <- limbo :: x in s.objs && Rooted(s.objs[x])
    ensures Closable(s, th)
    ensures var t := CloseUpvals(s, th, 0); |t.g.rest| + |Opens(t)| <= |s.g.rest| + |Opens(s)|
    decreases |s.objs[th].open|
  {
    hide LiveHeap, StringTable, PhaseInv, RootListBut, CloseOne, Colors;
    Aspects(s, limbo);
    ColorsKeys(s);
    assert OpenList(s, th);
    if s.objs[th].open != [] {
      var t := CloseOne(s, th);
      CloseOneInv(s, th, limbo);
      CloseOneClosable(s, t, th);
      CloseOneCount(s, t, th);
      CloseShapes(s, t, th);
      hide ClosedOne, OpenLists, OpenList;
      CloseCount(t, th, limbo);
    }
  }

  lemma CloseOneCount(s: State, t: State, th: Ref)
    requires ClosedOne(s, t, th)
    ensures |t.g.rest| + |Opens(t)| <= |s.g.rest| + |Opens(s)|
  {
    CloseShapes(s, t, th);
    var u := s.objs[th].open[0];
    hide OpenLists, OpenList;
    assert Opens(t) <= Opens(s) - {u};
    CountSubset(Opens(t), Opens(s) - {u});
    assert u in Opens(s);
  }

  lemma HeadCount(s: State)
    requires Inv(s) && s.g.phase == Sweep && s.g.rest != [] && Sweepable(s)
    ensures var t := SweepRootHead(s); |t.g.rest| + |Opens(t)| < |s.g.rest| + |Opens(s)|
  {
    hide LiveHeap, StringTable, RootListBut, OpenLists, FreeObj, PhaseInv, Colors;
    Aspects(s, {});
    var r := s.g.rest[0];
    InvSweepable(s);
    InvKeys(s);
    if Survives(s, r) {
      assert Opens(SweepRootHead(s)) == Opens(s);
    } else {
      DeadCount(s, r);
    }
  }

  lemma DeadCount(s: State, r: Ref)
    requires Inv(s) && s.g.phase == Sweep && s.g.rest != [] && r == s.g.rest[0]
    requires r in s.objs && !Survives(s, r)
    ensures var s1 := s.(g := s.g.(rest := s.g.rest[1..]));
            (s.objs[r].Thread? ==> Closable(s1, r)) && |FreeObj(s1, r).g.rest| + |Opens(FreeObj(s1, r))| < |s.g.rest| + |Opens(s)|
  {
    hide LiveHeap, StringTable, RootListBut, PhaseInv, CloseOne, Colors;
    Aspects(s, {});
    var s1 := s.(g := s.g.(rest := s.g.rest[1..]));
    InvKeys(s);
    Unlink(s);
    assert Opens(s1) == Opens(s);
    if s.objs[r].Thread? {
      CloseCount(s1, r, {r});
      CloseUpvalsThread(s1, r, r);
      var s2 := CloseUpvals(s1, r, 0);
      hide OpenLists;
      FreeCount(s2, r);
    } else {
      hide OpenLists;
      FreeCount(s1, r);
    }
  }

  lemma FreeCount(s: State, r: Ref)
    requires r in s.objs && Rooted(s.objs[r])
    ensures var t := FreeLeaf(s, r); t.g.rest == s.g.rest && |Opens(t)| <= |Opens(s)|
  {
    assert Opens(FreeLeaf(s, r)) <= Opens(s);
    CountSubset(Opens(FreeLeaf(s, r)), Opens(s));
  }

  lemma SweepRootOneCount(s: State)
    requires Inv(s) && s.g.phase == Sweep && s.g.rest != [] && Sweepable(s)
    ensures var t := SweepRootOne(s); |t.g.rest| + |Opens(t)| < |s.g.rest| + |Opens(s)|
  {
    hide LiveHeap, StringTable, RootListBut, SweepOpen, SweepRootHead, SweptTo, PhaseInv, Opens, OpenLists;
    Aspects(s, {});
    InvSweepable(s);
    var r := s.g.rest[0];
    assert r in s.g.rest;
    if s.objs[r].Thread? {
      SweepOpenInv(s, r);
      OpenSweptTo(s, r);
      var t := SweepOpen(s, r);
      InvSweepable(t);
      HeadCount(t);
      OpensSwept(s, t);
      CountSubset(Opens(t), Opens(s));
    } else {
      HeadCount(s);
    }
  }

  lemma {:induction false} SweepRootCount(s: State, n: nat)
    requires Inv(s) && s.g.phase == Sweep
    ensures var t := SweepRoot(s, n); |t.g.rest| + |Opens(t)| <= |s.g.rest| + |Opens(s)| - (if n > 0 && s.g.rest != [] then 1 else 0)
    decreases n
  {
    hide LiveHeap, StringTable, RootListBut, SweepRootOne, PhaseInv, Opens, OpenLists;
    Aspects(s, {});
    if n > 0 && s.g.rest != [] {
      InvSweepable(s);
      SweepRootOneInv(s);
      SweepRootOnePhase(s);
      SweepRootOneCount(s);
      SweepRootCount(SweepRootOne(s), n - 1);
    }
  }

  /** Every step but the start of a cycle brings the cycle nearer to its end. */
  lemma StepLess(s: State)
    requires Inv(s) && s.g.phase != Pause
    ensures Less(s, SingleStep(s))
  {
    hide LiveHeap, StringTable, RootListBut, OpenLists, PhaseInv, Opens;
    Aspects(s, {});
    match s.g.phase
    case Propagate =>
      if s.gray != [] {
        PropagateInv(s);
        InvLists(s);
        PropagateStep(s);
        PropagateGlobal(s);
      } else {
        InvLists(s);
      }
    case SweepString =>
      SweepBucketInv(s);
      BucketGlobal(s);
    case Sweep =>
      SweepRootCount(s, GC_SWEEP_MAX);
      var t := SweepRoot(s, GC_SWEEP_MAX);
      if s.g.rest == [] { assert t == s; }
    case Finalize => {}
  }

  lemma PropagateGlobal(s: State)
    requires ListsGray(s) && Ready(s)
    ensures PropagateMark(s).g == s.g
  {
    PropagateStep(s);
    AfterLists(s, PropagateMark(s));
  }

  lemma BucketGlobal(s: State)
    requires Inv(s) && s.g.phase == SweepString && s.g.sweepstr < |s.g.strt| && Chain(s, s.g.strt[s.g.sweepstr])
    ensures var t := SweepBucket(s); |t.g.strt| == |s.g.strt| && t.g.sweepstr == s.g.sweepstr + 1 && t.g.tmp == s.g.tmp
    ensures SweepBucket(s).g.phase == if s.g.sweepstr + 1 >= |s.g.strt| then Sweep else SweepString
  {
    hide LiveHeap, StringTable, RootListBut, OpenLists, SweepChain, Swept, Colors;
    Aspects(s, {});
    BucketStart(s);
    var l := s.g.strt[s.g.sweepstr];
    SweepChainSpec(s, l);
    SweptFrame(s, SweepChain(s, l), Elements(l));
  }

  lemma StepIdle(s: State)
    requires Inv(s) && s.g.tmp == {}
    ensures SingleStep(s).g.tmp == {}
  {
    hide LiveHeap, StringTable, RootListBut, OpenLists, PhaseInv;
    Aspects(s, {});
    match s.g.phase
    case Pause => InvKeys(s); MarkRootSpec(s);
    case Propagate =>
      InvLists(s);
      if s.gray != [] { PropagateInv(s); PropagateGlobal(s); } else { AtomicGlobal(s); }
    case SweepString => SweepBucketInv(s); BucketGlobal(s);
    case Sweep =>
      SweepRootSweptTo(s, GC_SWEEP_MAX);
      var t := SweepRoot(s, GC_SWEEP_MAX);
      InvTable(t);
      CheckSizesFrame(t);
    case Finalize => {}
  }

  lemma AtomicGlobal(s: State)
    requires Inv(s) && s.g.phase == Propagate && s.gray == [] && ListsGray(s)
    ensures Atomic(s).g.tmp == s.g.tmp
  {
    hide LiveHeap, StringTable, RootListBut, OpenLists, PhaseInv, Colors, Refs;
    Aspects(s, {});
    AtomicMarked(s);
    var t := AtomicMark(s);
    MarkedClearing(t);
    ClearTablesMarked(t, t.weak);
    ClearedRoots(t, ClearTables(t, t.weak));
    AtomicFrame(s);
  }

  /** Collector steps until the given phase is reached. */
  function RunUntil(s: State, stop: Phase): (t: State)
    requires Inv(s) && s.g.tmp == {} && Rank(stop) <= 1 && Rank(stop) <= Rank(s.g.phase)
    ensures Inv(t) && t.g.tmp == {} && t.g.phase == stop
    decreases Rank(s.g.phase), Unmarked(s), Work(s)
  {
    hide Inv, SingleStep;
    if s.g.phase == stop then s else
      StepFacts(s, stop);
      RunUntil(SingleStep(s), stop)
  }

  lemma StepFacts(s: State, stop: Phase)
    requires Inv(s) && s.g.tmp == {} && Rank(stop) <= 1 && Rank(stop) <= Rank(s.g.phase) && s.g.phase != stop
    ensures var t := SingleStep(s);
            && Inv(t) && t.g.tmp == {} && Rank(stop) <= Rank(t.g.phase)
            && (Rank(t.g.phase) < Rank(s.g.phase) ||
                (Rank(t.g.phase) == Rank(s.g.phase) &&
                 (Unmarked(t) < Unmarked(s) || (Unmarked(t) == Unmarked(s) && 0 <= Work(t) < Work(s)))))
  {
    hide Inv, SingleStep, Work, Unmarked;
    SingleStepInv(s);
    StepIdle(s);
    StepLess(s);
    StepRank(s, stop);
  }

  /** A step goes to the next phase at most, so it does not jump over `stop`. */
  lemma StepRank(s: State, stop: Phase)
    requires Inv(s) && Rank(stop) <= 1 && Rank(stop) < Rank(s.g.phase)
    ensures Rank(stop) <= Rank(SingleStep(s).g.phase)
  {
    hide LiveHeap, StringTable, RootListBut, OpenLists, PhaseInv;
    Aspects(s, {});
    match s.g.phase
    case Propagate => if s.gray != [] { PropagateInv(s); InvLists(s); PropagateGlobal(s); }
    case SweepString => SweepBucketInv(s); BucketGlobal(s);
    case Sweep =>
    case _ =>
  }

  lemma ResetReady(s: State)
    requires Inv(s) && s.g.tmp == {}
    ensures Inv(Reset(s)) && Rank(Finalize) <= Rank(Reset(s).g.phase) && Reset(s).g.phase != Propagate && Reset(s).g.tmp == {}
  {
    hide Inv;
    ResetInv(s);
  }

  /** The first half of `luaC_fullgc`: any pending sweep is finished. */
  function Finished(s: State): (t: State)
    requires Inv(s) && s.g.tmp == {}
    ensures Inv(t) && t.g.tmp == {} && t.g.phase == Finalize && t.mark.Keys == t.objs.Keys
  {
    hide Inv, Reset, RunUntil;
    ResetReady(s);
    var t := RunUntil(Reset(s), Finalize);
    InvKeys(t);
    t
  }

  lemma NewCycle(s: State)
    requires Inv(s) && s.g.tmp == {} && s.g.phase == Finalize
    ensures s.mark.Keys == s.objs.Keys
    ensures var t := MarkRoot(s); Inv(t) && t.g.tmp == {} && t.g.phase == Propagate
  {
    hide Inv, MarkRoot;
    InvKeys(s);
    MarkRootInv(s);
    MarkRootSpec(s);
  }

  /** `luaC_fullgc`: then one whole cycle. */
  function FullGc(s: State): (t: State)
    requires Inv(s) && s.g.tmp == {}
    ensures Inv(t) && t.g.phase == Pause
  {
    hide Inv, Finished, RunUntil, MarkRoot;
    var s1 := Finished(s);
    NewCycle(s1);
    RunUntil(MarkRoot(s1), Pause)
  }
}
