/** Exactness of a full collection. */
module GcExact {
  import opened GcHeap
  import opened GcMark
  import opened GcPropagate
  import opened GcAtomic
  import opened GcInvariant
  import opened GcBarrier
  import opened GcClose
  import opened GcSweep
  import opened GcSweepInv
  import opened GcStrings
  import opened GcMutator
  import opened GcMachine
  import opened GcSafety
  import opened GcKeep
  import opened GcFull

  // ---- Marking marks nothing else -----------------------------------------

  ghost predicate Within(s: State, m: iset<Ref>) {
    forall r <- s.mark :: !IsWhite(s, r) ==> r in m
  }

  ghost predicate StrongClosed(s: State, m: iset<Ref>) {
    forall r, q :: r in m && r in s.objs && Gc(q) in StrongRefs(s, s.objs[r]) ==> q in m
  }

  lemma ClosedSame(s: State, t: State, m: iset<Ref>)
    requires StrongClosed(s, m) && t.objs == s.objs
    ensures StrongClosed(t, m)
  {
    forall r, q | r in m && r in t.objs && Gc(q) in StrongRefs(t, t.objs[r]) ensures q in m {
      RefsSame(s, t, s.objs[r]);
      hide StrongRefs, Refs;
    }
  }

  lemma ClosedRefs(s: State, m: iset<Ref>, r: Ref)
    requires StrongClosed(s, m) && r in m && r in s.objs
    ensures forall v <- StrongRefs(s, s.objs[r]) :: v.Gc? ==> v.ref in m
  {
    forall v <- StrongRefs(s, s.objs[r]) | v.Gc? ensures v.ref in m {
      assert v == Gc(v.ref);
    }
  }

  lemma {:induction false} ReallyMarkWithin(s: State, o: Ref, m: iset<Ref>)
    requires s.mark.Keys == s.objs.Keys && IsWhite(s, o) && Within(s, m) && StrongClosed(s, m) && o in m
    ensures Within(ReallyMark(s, o), m)
    decreases Whites(s), 1
  {
    hide Extends, Contents;
    ClosedRefs(s, m, o);
    match s.objs[o]
    case Udata(meta, env) =>
      var s1 := SetColor(s, o, Black);
      WhitesDrop(s, o, Black);
      ClosedSame(s, s1, m);
      MarkOptWithin(s1, meta, m);
      var s2 := MarkOpt(s1, meta);
      ExtendsWhites(s1, s2);
      ExtendsFrame(s1, s2);
      ClosedSame(s1, s2, m);
      MarkRefWithin(s2, env, m);
    case Closed(v) => MarkUpvalWithin(s, o, m);
    case Open(_, _) => MarkUpvalWithin(s, o, m);
    case _ =>
  }

  lemma {:induction false} MarkUpvalWithin(s: State, o: Ref, m: iset<Ref>)
    requires s.mark.Keys == s.objs.Keys && IsWhite(s, o) && Within(s, m) && StrongClosed(s, m) && o in m
    requires s.objs[o].Open? || s.objs[o].Closed?
    ensures Within(MarkUpval(s, o), m)
    decreases Whites(s), 0
  {
    hide Extends, Contents;
    ClosedRefs(s, m, o);
    var v := UpvalValue(s, s.objs[o]);
    assert Refs(s, s.objs[o]) == [v];
    assert v in StrongRefs(s, s.objs[o]);
    var s1 := SetColor(s, o, Gray);
    WhitesDrop(s, o, Gray);
    ClosedSame(s, s1, m);
    if v.Gc? { MarkRefWithin(s1, v.ref, m); }
    assert Within(MarkValue(s1, v), m);
  }

  lemma {:induction false} MarkRefWithin(s: State, r: Ref, m: iset<Ref>)
    requires s.mark.Keys == s.objs.Keys && Within(s, m) && StrongClosed(s, m) && r in m
    ensures Within(MarkRef(s, r), m)
    decreases Whites(s), 2
  {
    hide StrongClosed, Within;
    if IsWhite(s, r) { ReallyMarkWithin(s, r, m); }
  }

  lemma {:induction false} MarkOptWithin(s: State, r: Option<Ref>, m: iset<Ref>)
    requires s.mark.Keys == s.objs.Keys && Within(s, m) && StrongClosed(s, m)
    requires forall v <- OptRef(r) :: v.Gc? ==> v.ref in m
    ensures Within(MarkOpt(s, r), m)
    decreases Whites(s), 3
  {
    hide StrongClosed, Within;
    if r.Some? {
      assert Gc(r.value) in OptRef(r);
      MarkRefWithin(s, r.value, m);
    }
  }

  lemma {:induction false} MarkAllWithin(s: State, vs: seq<Value>, m: iset<Ref>)
    requires s.mark.Keys == s.objs.Keys && Within(s, m) && StrongClosed(s, m)
    requires forall v <- vs :: v.Gc? ==> v.ref in m
    ensures Within(MarkAll(s, vs), m)
    decreases |vs|
  {
    hide StrongClosed, Within, Extends, ReallyMark;
    if vs != [] {
      var s1 := MarkValue(s, vs[0]);
      assert vs[0] in vs;
      if vs[0].Gc? { MarkRefWithin(s, vs[0].ref, m); }
      ExtendsFrame(s, s1);
      ClosedSame(s, s1, m);
      MarkAllWithin(s1, vs[1..], m);
    }
  }

  lemma {:induction false} MarkMtsWithin(s: State, mts: seq<Option<Ref>>, m: iset<Ref>)
    requires s.mark.Keys == s.objs.Keys && Within(s, m) && StrongClosed(s, m)
    requires forall x <- mts :: x.Some? ==> x.value in m
    ensures Within(MarkMts(s, mts), m)
    decreases |mts|
  {
    hide StrongClosed, Within, Extends, ReallyMark;
    if mts != [] {
      var s1 := MarkOpt(s, mts[0]);
      assert mts[0] in mts;
      MarkOptWithin(s, mts[0], m);
      ExtendsFrame(s, s1);
      ClosedSame(s, s1, m);
      MarkMtsWithin(s1, mts[1..], m);
    }
  }

  lemma {:induction false} RemarkWithin(s: State, uvs: seq<Ref>, m: iset<Ref>)
    requires s.mark.Keys == s.objs.Keys && Within(s, m) && StrongClosed(s, m)
    requires forall u <- uvs :: u in s.objs ==> s.objs[u].Open?
    ensures Within(RemarkUpvals(s, uvs), m)
    decreases |uvs|
  {
    hide StrongClosed, Extends, ReallyMark;
    if uvs != [] {
      var u := uvs[0];
      var s1 := if IsGray(s, u) then MarkValue(s, UpvalValue(s, s.objs[u])) else s;
      if IsGray(s, u) { RemarkOneWithin(s, u, m); }
      assert Extends(s, s1) by { ExtendsSelf(s); }
      ExtendsFrame(s, s1);
      ClosedSame(s, s1, m);
      hide Within;
      RemarkWithin(s1, uvs[1..], m);
    }
  }

  lemma RemarkOneWithin(s: State, u: Ref, m: iset<Ref>)
    requires s.mark.Keys == s.objs.Keys && Within(s, m) && StrongClosed(s, m)
    requires IsGray(s, u) && s.objs[u].Open?
    ensures Within(MarkValue(s, UpvalValue(s, s.objs[u])), m)
  {
    hide ReallyMark;
    ClosedRefs(s, m, u);
    var v := UpvalValue(s, s.objs[u]);
    assert v in StrongRefs(s, s.objs[u]);
    if v.Gc? { MarkRefWithin(s, v.ref, m); }
  }

  lemma PropagateMarkWithin(s: State, m: iset<Ref>)
    requires Ready(s) && Within(s, m) && StrongClosed(s, m)
    ensures Within(PropagateMark(s), m)
  {
    hide StrongClosed, StrongRefs, Refs;
    var o := s.gray[0];
    ClosedRefs(s, m, o);
    var s1 := SetColor(s, o, Black).(gray := s.gray[1..]);
    if s.objs[o].Table? {
      ClosedSame(s, s1, m);
      TableWithin(s, s1, o, m);
    } else {
      var s2 := if s.objs[o].Thread? then SetColor(s1, o, Gray).(grayagain := [o] + s.grayagain) else s1;
      ClosedSame(s, s2, m);
      StrongIsRefs(s, o);
      MarkAllWithin(s2, Refs(s, s.objs[o]), m);
    }
  }

  lemma StrongIsRefs(s: State, o: Ref)
    requires o in s.objs && !s.objs[o].Table?
    ensures StrongRefs(s, s.objs[o]) == Refs(s, s.objs[o])
  {}

  lemma TableWithin(s: State, p: State, o: Ref, m: iset<Ref>)
    requires Ready(s) && o == s.gray[0] && s.objs[o].Table?
    requires p == SetColor(s, o, Black).(gray := s.gray[1..])
    requires Within(p, m) && StrongClosed(p, m) && o in m
    ensures Within(TraverseTable(p, o), m)
  {
    hide Contents, Extends;
    var h := p.objs[o];
    ClosedRefs(p, m, o);
    var s1 := MarkOpt(p, h.mt);
    MarkOptWithin(p, h.mt, m);
    ExtendsFrame(p, s1);
    var (kw, vw) := Mode(s1, h.mt);
    assert (kw, vw) == Mode(p, h.mt);
    if kw || vw {
      var s2 := SetWeakBits(s1, o, kw, vw).(weak := [o] + s1.weak);
      assert Within(s2, m) by { hide StrongRefs, StrongClosed; }
      ClosedSame(p, s2, m);
      MarkAllWithin(s2, Contents(h, kw, vw), m);
    } else {
      ClosedSame(p, s1, m);
      MarkAllWithin(s1, Contents(h, false, false), m);
    }
  }

  lemma {:induction false} PropagateAllWithin(s: State, m: iset<Ref>)
    requires ListsGray(s) && Within(s, m) && StrongClosed(s, m)
    ensures Within(PropagateAll(s), m)
    decreases Whites(s), |s.gray|
  {
    hide StrongClosed, Within;
    if s.gray != [] {
      HeadReady(s);
      var s1 := PropagateMark(s);
      PropagateStep(s);
      PropagateMarkWithin(s, m);
      AfterLists(s, s1);
      ClosedSame(s, s1, m);
      hide PropagateMark;
      PropagateAllWithin(s1, m);
    }
  }

  lemma AtomicMarkWithin(s: State, m: iset<Ref>)
    requires ListsGray(s) && Within(s, m) && StrongClosed(s, m)
    requires forall u <- s.g.uvhead :: u in s.objs ==> s.objs[u].Open?
    requires s.g.running in m && forall x <- s.g.mts :: x.Some? ==> x.value in m
    ensures Within(AtomicMark(s), m)
  {
    hide StrongClosed, Within, Extends, ListsGray, PropagateAll, After;
    ListsKeys(s);
    var s1 := RemarkUpvals(s, s.g.uvhead);
    RemarkWithin(s, s.g.uvhead, m);
    ExtendsListsGray(s, s1);
    ExtendsFrame(s, s1);
    ClosedSame(s, s1, m);
    var s2 := PropagateAll(s1);
    PropagateAllWithin(s1, m);
    AfterLists(s1, s2);
    ClosedSame(s1, s2, m);
    var s3 := s2.(gray := s2.weak, weak := []);
    WithinLists(s2, s3, m);
    assert ListsGray(s3) by { RequeuedLists(s2); }
    var s4 := MarkRef(s3, s3.g.running);
    MarkRefWithin(s3, s3.g.running, m);
    ExtendsListsGray(s3, s4);
    ExtendsFrame(s3, s4);
    ClosedSame(s3, s4, m);
    var s5 := MarkMts(s4, s4.g.mts);
    MarkMtsWithin(s4, s4.g.mts, m);
    ExtendsListsGray(s4, s5);
    ExtendsFrame(s4, s5);
    ClosedSame(s4, s5, m);
    var s6 := PropagateAll(s5);
    PropagateAllWithin(s5, m);
    AfterLists(s5, s6);
    ClosedSame(s5, s6, m);
    var s7 := s6.(gray := s6.grayagain, grayagain := []);
    WithinLists(s6, s7, m);
    assert ListsGray(s7) by { RequeuedLists(s6); }
    PropagateAllWithin(s7, m);
  }

  lemma RequeuedLists(s: State)
    requires ListsGray(s) && s.gray == []
    ensures ListsGray(s.(gray := s.weak, weak := [])) && ListsGray(s.(gray := s.grayagain, grayagain := []))
  {}

  lemma WithinLists(s: State, t: State, m: iset<Ref>)
    requires t.objs == s.objs && t.mark == s.mark && Within(s, m) && StrongClosed(s, m)
    ensures Within(t, m) && StrongClosed(t, m)
  {
    ClosedSame(s, t, m);
  }

  lemma MarkMainWithin(s: State, s0: State, m: iset<Ref>)
    requires s0 == s.(gray := [], grayagain := [], weak := [])
    requires s.mark.Keys == s.objs.Keys && Within(s0, m) && StrongClosed(s, m) && StrongClosed(s0, m)
    requires forall r :: Root(s, r) ==> r in m
    ensures Within(MarkMain(s0), m)
  {
    hide StrongClosed, Within, Extends, ReallyMark;
    assert Root(s, s.g.main);
    MarkRefWithin(s0, s.g.main, m);
    var s1 := MarkRef(s0, s.g.main);
    ExtendsFrame(s0, s1);
    ClosedSame(s0, s1, m);
    MainGlobals(s, m);
    if s.g.main in s.objs && s.objs[s.g.main].Thread? && s.objs[s.g.main].gt.Gc? {
      MarkRefWithin(s1, s.objs[s.g.main].gt.ref, m);
    }
  }

  lemma MarkRootWithin(s: State, m: iset<Ref>)
    requires s.mark.Keys == s.objs.Keys && Within(s, m) && StrongClosed(s, m)
    requires forall r :: Root(s, r) ==> r in m
    ensures Within(MarkRoot(s), m)
  {
    hide StrongClosed, Within, Extends, ReallyMark, MarkMain;
    var s0 := s.(gray := [], grayagain := [], weak := []);
    WithinLists(s, s0, m);
    var s2 := MarkMain(s0);
    MarkMainWithin(s, s0, m);
    ExtendsFrame(s0, s2);
    ClosedSame(s0, s2, m);
    if s.g.registry.Gc? {
      assert Root(s, s.g.registry.ref);
      MarkRefWithin(s2, s.g.registry.ref, m);
    }
    var s3 := MarkValue(s2, s.g.registry);
    ExtendsFrame(s2, s3);
    ClosedSame(s2, s3, m);
    forall x <- s.g.mts | x.Some? ensures x.value in m { assert Root(s, x.value); }
    MarkMtsWithin(s3, s.g.mts, m);
    var s4 := MarkMts(s3, s.g.mts);
    WithinPhase(s4, MarkRoot(s), m);
  }

  lemma WithinPhase(s: State, t: State, m: iset<Ref>)
    requires t.mark == s.mark && Within(s, m)
    ensures Within(t, m)
  {}

  lemma MainGlobals(s: State, m: iset<Ref>)
    requires StrongClosed(s, m) && forall r :: Root(s, r) ==> r in m
    ensures s.g.main in s.objs && s.objs[s.g.main].Thread? && s.objs[s.g.main].gt.Gc? ==> s.objs[s.g.main].gt.ref in m
  {
    assert Root(s, s.g.main);
    if s.g.main in s.objs && s.objs[s.g.main].Thread? {
      ClosedRefs(s, m, s.g.main);
      assert s.objs[s.g.main].gt in StrongRefs(s, s.objs[s.g.main]);
    }
  }

  // ---- The survivors ------------------------------------------------------

  /** The key of a weak entry that stays: not an object, a string, or an object
      that is strongly reachable. */
  ghost predicate KeyStays(s: State, k: Value) {
    k.Gc? && k.ref in s.objs && !s.objs[k.ref].Str? ==> StrongReachable(s, k.ref)
  }

  /** A string that the clearing of weak table `o` keeps. */
  ghost predicate HeldBy(s: State, o: Obj, r: Ref)
    requires o.Table?
  {
    || (Mode(s, o.mt).1 && Gc(r) in o.arr)
    || exists n <- o.nodes :: !n.val.Nil? && (n.key == Gc(r) || (n.val == Gc(r) && KeyStays(s, n.key)))
  }

  ghost predicate WeakHeld(s: State, r: Ref) {
    && r in s.objs && s.objs[r].Str?
    && exists h <- s.objs :: StrongReachable(s, h) && s.objs[h].Table?
         && Mode(s, s.objs[h].mt) != (false, false) && HeldBy(s, s.objs[h], r)
  }

  ghost predicate Survivor(s: State, r: Ref) {
    r in s.objs && ((r in s.mark && s.mark[r].fixed) || StrongReachable(s, r) || WeakHeld(s, r))
  }

  ghost function Strongly(s: State): iset<Ref> {
    iset r | StrongReachable(s, r)
  }

  lemma StronglyClosed(s: State)
    ensures StrongClosed(s, Strongly(s))
    ensures forall r :: Root(s, r) ==> r in Strongly(s)
  {
    forall r, q | r in Strongly(s) && r in s.objs && Gc(q) in StrongRefs(s, s.objs[r]) ensures q in Strongly(s) {
      hide StrongRefs, StrongReachable;
      StrongStep(s, r, q);
    }
    forall r | Root(s, r) ensures r in Strongly(s) { RootStrong(s, r); }
  }

  ghost predicate SameRoots(s: State, t: State) {
    && t.g.main == s.g.main && t.g.running == s.g.running && t.g.registry == s.g.registry
    && t.g.mts == s.g.mts && t.g.tmp == s.g.tmp
  }

  lemma StrongSame(s: State, t: State, r: Ref)
    requires t.objs == s.objs && SameRoots(s, t) && StrongReachable(s, r)
    ensures StrongReachable(t, r)
  {
    var p :| StrongPath(s, p) && p[|p| - 1] == r;
    forall i | 0 <= i < |p| - 1 ensures p[i] in t.objs && Gc(p[i + 1]) in StrongRefs(t, t.objs[p[i]]) {
      RefsSame(s, t, s.objs[p[i]]);
      hide StrongRefs;
    }
    assert StrongPath(t, p);
  }

  lemma SurvivorSame(s: State, t: State, r: Ref)
    requires t.objs == s.objs && SameRoots(s, t) && t.mark.Keys == s.mark.Keys
    requires forall x <- s.mark :: t.mark[x].fixed == s.mark[x].fixed
    ensures Survivor(s, r) <==> Survivor(t, r)
  {
    hide StrongReachable;
    forall x ensures StrongReachable(s, x) <==> StrongReachable(t, x) {
      if StrongReachable(s, x) { StrongSame(s, t, x); }
      if StrongReachable(t, x) { StrongSame(t, s, x); }
    }
    forall o: Obj | o.Table? ensures Mode(s, o.mt) == Mode(t, o.mt) && (HeldBy(s, o, r) <==> HeldBy(t, o, r)) {}
  }

  // ---- The atomic step is exact -------------------------------------------

  lemma TestedRefs(s: State, o: Obj, vw: bool, v: Value)
    requires o.Table? && Tested(s, o, vw, v)
    ensures v in Refs(s, o)
  {
    NodeRefsMember(o.nodes, false, false, v);
  }

  lemma TestedKept(s: State, h: Ref, o: Obj, vw: bool, v: Value)
    requires s.mark.Keys == s.objs.Keys && h in s.objs && s.objs[h].Table? && o.Table?
    ensures Tested(ClearTable(s, h), o, vw, v) <==> Tested(s, o, vw, v)
  {
    hide ClearArray, ClearNodes;
    var t := ClearTable(s, h);
    forall k ensures Cleared(t, k) <==> Cleared(s, k) {}
  }

  /** Clearing marks exactly the strings it comes across. */
  lemma {:induction false} ClearTablesStrings(s: State, l: seq<Ref>, r: Ref)
    requires s.mark.Keys == s.objs.Keys && Distinct(l) && forall h <- l :: h in s.objs && s.objs[h].Table?
    requires r in s.objs && s.objs[r].Str? && IsWhite(s, r)
    ensures !IsWhite(ClearTables(s, l), r) <==> exists h <- l :: Tested(s, s.objs[h], s.mark[h].valueWeak, Gc(r))
    decreases |l|
  {
    if l != [] {
      hide Tested;
      var h := l[0];
      var t := ClearTable(s, h);
      ClearTableFrame(s, h);
      TailMembers(l);
      forall x <- l[1..] ensures t.objs[x] == s.objs[x] && t.mark[x] == s.mark[x]
                                 && (Tested(t, t.objs[x], t.mark[x].valueWeak, Gc(r)) <==> Tested(s, s.objs[x], s.mark[x].valueWeak, Gc(r)))
      {
        TestedKept(s, h, s.objs[x], s.mark[x].valueWeak, Gc(r));
      }
      ClearOneString(s, h, r);
      if IsWhite(t, r) {
        ClearTablesStrings(t, l[1..], r);
      } else {
        ClearMonotone(t, l[1..], r);
      }
    }
  }

  lemma ClearOneString(s: State, h: Ref, r: Ref)
    requires s.mark.Keys == s.objs.Keys && h in s.objs && s.objs[h].Table?
    requires r in s.objs && s.objs[r].Str? && IsWhite(s, r)
    ensures !IsWhite(ClearTable(s, h), r) <==> Tested(s, s.objs[h], s.mark[h].valueWeak, Gc(r))
  {
    hide ClearArray, ClearNodes, Tested;
  }

  lemma {:induction false} ClearMonotone(s: State, l: seq<Ref>, r: Ref)
    requires s.mark.Keys == s.objs.Keys && forall h <- l :: h in s.objs && s.objs[h].Table?
    requires !IsWhite(s, r)
    ensures !IsWhite(ClearTables(s, l), r)
    decreases |l|
  {
    if l != [] {
      ClearTableFrame(s, l[0]);
      ClearMonotone(ClearTable(s, l[0]), l[1..], r);
    }
  }

  /** Marking ends with exactly the strongly reachable objects. */
  lemma AtomicMarkExact(s: State, r: Ref)
    requires Inv(s) && s.g.phase == Propagate && s.gray == [] && s.g.tmp == {} && Within(s, Strongly(s))
    requires r in s.objs
    ensures ListsGray(s) && (IsWhite(AtomicMark(s), r) <==> !StrongReachable(s, r))
  {
    hide LiveHeap, RootListBut, StringTable, PhaseInv, Colors, StrongReachable;
    Aspects(s, {});
    StronglyClosed(s);
    InvLists(s);
    assert Root(s, s.g.running);
    forall x <- s.g.mts | x.Some? ensures x.value in Strongly(s) { assert Root(s, x.value); }
    AtomicMarkWithin(s, Strongly(s));
    AtomicMarked(s);
    MarksFrame(s, AtomicMark(s));
    InvKeys(s);
    hide OpenLists, AtomicMark;
    if StrongReachable(s, r) { AtomicMarksStrong(s, r); }
  }

  lemma HeldTested(s: State, t: State, o: Obj, r: Ref)
    requires o.Table? && t.objs == s.objs && t.mark.Keys == t.objs.Keys
    requires forall x <- s.objs :: IsWhite(t, x) <==> !StrongReachable(s, x)
    ensures Tested(t, o, Mode(s, o.mt).1, Gc(r)) <==> HeldBy(s, o, r)
  {
    hide StrongReachable;
    forall k ensures Cleared(t, k) <==> !KeyStays(s, k) {}
  }

  lemma DoneStrong(t: State, h: Ref, r: Ref, vw: bool)
    requires h in t.objs && h in t.mark && t.objs[h].Table? && Done(t, h) && IsWhite(t, r)
    requires Tested(t, t.objs[h], vw, Gc(r))
    ensures h in t.weak && t.mark[h].valueWeak == Mode(t, t.objs[h].mt).1 && Mode(t, t.objs[h].mt) != (false, false)
  {
    TestedRefs(t, t.objs[h], vw, Gc(r));
    hide Tested, Contents;
    assert Gc(r) in Refs(t, t.objs[h]) && !Marked(t, Gc(r));
  }

  /** Alive after the atomic step: strongly reachable, or a string that a
      surviving weak table holds. */
  lemma AtomicAliveExact(s: State, r: Ref)
    requires Inv(s) && s.g.phase == Propagate && s.gray == [] && s.g.tmp == {} && Within(s, Strongly(s))
    requires r in s.objs
    ensures ListsGray(s) && (Alive(Atomic(s), r) <==> StrongReachable(s, r) || WeakHeld(s, r))
  {
    hide LiveHeap, RootListBut, OpenLists, StringTable, PhaseInv, Colors, StrongReachable, Within, WeakHeld, AtomicMark, Atomic, ClearTables;
    Aspects(s, {});
    forall x <- s.objs ensures ListsGray(s) && (IsWhite(AtomicMark(s), x) <==> !StrongReachable(s, x)) {
      AtomicMarkExact(s, x);
    }
    AtomicDead(s);
    AtomicMarked(s);
    var t := AtomicMark(s);
    if !StrongReachable(s, r) {
      if s.objs[r].Str? {
        AtomicStrings(s, t, r);
      } else {
        NotHeld(s, r);
        assert IsDead(Atomic(s), r);
      }
    }
  }

  lemma NotHeld(s: State, r: Ref)
    requires r in s.objs && !s.objs[r].Str?
    ensures !WeakHeld(s, r)
  {}

  lemma AtomicStrings(s: State, t: State, r: Ref)
    requires Inv(s) && s.g.phase == Propagate && s.gray == [] && ListsGray(s) && t == AtomicMark(s)
    requires r in s.objs && s.objs[r].Str? && !StrongReachable(s, r)
    requires forall x <- s.objs :: IsWhite(t, x) <==> !StrongReachable(s, x)
    requires t.objs == s.objs && t.mark.Keys == t.objs.Keys && Scanned(t, {}) && t.gray == []
    ensures Alive(Atomic(s), r) <==> WeakHeld(s, r)
  {
    hide Inv, StrongReachable, AtomicMark, Tested, HeldBy, WeakHeld, Atomic, ListsGray;
    WeakTablesClear(s);
    ClearTablesStrings(t, t.weak, r);
    AtomicStringColor(s, t, r);
    hide ClearTables;
    if h :| h in t.weak && Tested(t, t.objs[h], t.mark[h].valueWeak, Gc(r)) {
      TestedHeld(s, t, h, r);
    }
    if WeakHeld(s, r) { HeldIsTested(s, t, r); }
  }

  lemma WeakTablesClear(s: State)
    requires Inv(s) && s.g.phase == Propagate && s.gray == [] && ListsGray(s)
    ensures var t := AtomicMark(s);
            && t.mark.Keys == t.objs.Keys && Distinct(t.weak) && Clearing(t, t.weak)
            && forall h <- t.weak :: h in t.objs && t.objs[h].Table? && Clearable(t, h) && !IsWhite(t, h)
  {
    hide LiveHeap, RootListBut, OpenLists, StringTable, PhaseInv, Colors, AtomicMark, Clearing, Clearable;
    Aspects(s, {});
    AtomicMarked(s);
    MarkedClearing(AtomicMark(s));
  }

  lemma TestedHeld(s: State, t: State, h: Ref, r: Ref)
    requires t.objs == s.objs && t.mark.Keys == t.objs.Keys && Scanned(t, {}) && t.gray == []
    requires forall x <- s.objs :: IsWhite(t, x) <==> !StrongReachable(s, x)
    requires r in s.objs && s.objs[r].Str? && !StrongReachable(s, r)
    requires h in t.weak && h in t.objs && t.objs[h].Table? && !IsWhite(t, h) && Tested(t, t.objs[h], t.mark[h].valueWeak, Gc(r))
    ensures WeakHeld(s, r)
  {
    hide StrongReachable, Tested, HeldBy;
    assert Done(t, h);
    DoneStrong(t, h, r, t.mark[h].valueWeak);
    RefsSame(s, t, s.objs[h]);
    HeldTested(s, t, s.objs[h], r);
    assert StrongReachable(s, h);
  }

  lemma HeldIsTested(s: State, t: State, r: Ref)
    requires t.objs == s.objs && t.mark.Keys == t.objs.Keys && Scanned(t, {}) && t.gray == []
    requires forall x <- s.objs :: IsWhite(t, x) <==> !StrongReachable(s, x)
    requires WeakHeld(s, r) && !StrongReachable(s, r)
    ensures exists h <- t.weak :: h in t.objs && t.objs[h].Table? && h in t.mark && Tested(t, t.objs[h], t.mark[h].valueWeak, Gc(r))
  {
    hide StrongReachable, Tested, HeldBy;
    var h :| h in s.objs && StrongReachable(s, h) && s.objs[h].Table?
             && Mode(s, s.objs[h].mt) != (false, false) && HeldBy(s, s.objs[h], r);
    HeldTested(s, t, s.objs[h], r);
    assert Done(t, h);
    RefsSame(s, t, s.objs[h]);
    DoneStrong(t, h, r, Mode(s, s.objs[h].mt).1);
    assert h in t.weak && Tested(t, t.objs[h], t.mark[h].valueWeak, Gc(r));
  }

  lemma AtomicStringColor(s: State, t: State, r: Ref)
    requires Inv(s) && s.g.phase == Propagate && s.gray == [] && ListsGray(s) && t == AtomicMark(s)
    requires r in s.objs && IsWhite(t, r) && t.objs == s.objs && t.mark.Keys == t.objs.Keys
    requires Clearing(t, t.weak) && forall h <- t.weak :: h in t.objs && t.objs[h].Table? && Clearable(t, h)
    ensures Alive(Atomic(s), r) <==> !IsWhite(ClearTables(t, t.weak), r)
  {
    hide RootListBut, OpenLists, StringTable, Refs;
    Aspects(s, {});
    AtomicMarked(s);
    MarkStepInv(s, t);
    ClearTablesMarked(t, t.weak);
    var u := ClearTables(t, t.weak);
    AtomicFrame(s);
    ClearedWhiteKept(t, u);
    hide ClearTables, AtomicMark, Atomic, ClearedFrom, LiveHeap, Colors, Clearing, Clearable;
  }

  lemma ClearedWhiteKept(s: State, t: State)
    requires ClearedFrom(s, t) && NoDead(s)
    ensures t.objs.Keys == s.objs.Keys == t.mark.Keys && t.g == s.g
    ensures forall r <- t.mark :: t.mark[r].color.White? ==> t.mark[r].color == White(s.g.cur)
  {
    hide Refs;
  }

  // ---- The sweep after it -------------------------------------------------

  lemma StepSwept(s: State)
    requires Inv(s) && (s.g.phase == SweepString || s.g.phase == Sweep || s.g.phase == Finalize)
    ensures SweptTo(s, SingleStep(s))
  {
    hide LiveHeap, RootListBut, OpenLists, StringTable, PhaseInv;
    Aspects(s, {});
    InvKeys(s);
    match s.g.phase
    case SweepString =>
      SweepBucketInv(s);
      BucketSwept(s);
    case Sweep =>
      SweepRootSweptTo(s, GC_SWEEP_MAX);
      var t := SweepRoot(s, GC_SWEEP_MAX);
      InvTable(t);
      CheckSizesFrame(t);
    case Finalize => SweptToSelf(s, SingleStep(s));
  }

  lemma BucketSwept(s: State)
    requires Inv(s) && s.g.phase == SweepString && s.g.sweepstr < |s.g.strt| && Chain(s, s.g.strt[s.g.sweepstr])
    ensures SweptTo(s, SweepBucket(s))
  {
    hide LiveHeap, RootListBut, OpenLists, StringTable, Colors, SweepChain, Swept;
    Aspects(s, {});
    BucketStart(s);
    var l := s.g.strt[s.g.sweepstr];
    SweepChainSpec(s, l);
    ColorsFixed(s);
    ChainSweptTo(s, SweepChain(s, l), Elements(l));
    assert forall r :: Alive(SweepChain(s, l), r) <==> Alive(SweepBucket(s), r);
  }

  lemma {:induction false} RunSwept(s: State, stop: Phase)
    requires Inv(s) && s.g.tmp == {} && Rank(stop) <= 1 && Rank(stop) <= Rank(s.g.phase) && s.g.phase != Propagate
    ensures SweptTo(s, RunUntil(s, stop))
    decreases Rank(s.g.phase), Unmarked(s), Work(s)
  {
    hide Inv, SingleStep, SweptTo, Work, Unmarked;
    InvKeys(s);
    if s.g.phase == stop {
      SweptToSelf(s, s);
    } else {
      StepFacts(s, stop);
      SweepsOn(s);
      StepSwept(s);
      var t := SingleStep(s);
      RunSwept(t, stop);
      InvOpens(t);
      SweptToTrans(s, t, RunUntil(t, stop));
    }
  }

  lemma SweepsOn(s: State)
    requires Inv(s) && s.g.phase != Propagate && s.g.phase != Pause
    ensures SingleStep(s).g.phase != Propagate
  {
    Aspects(s, {});
    StepLess(s);
    hide Inv, SingleStep;
  }

  lemma InvOpens(s: State)
    requires Inv(s)
    ensures OpenLists(s)
  {
    hide LiveHeap, RootListBut, OpenLists, StringTable, PhaseInv, Colors;
    Aspects(s, {});
  }

  lemma EndWhite(s: State)
    requires Inv(s) && (s.g.phase == Pause || s.g.phase == Finalize)
    ensures AllWhite(s) && s.mark.Keys == s.objs.Keys
  {
    hide LiveHeap, RootListBut, OpenLists, StringTable;
    Aspects(s, {});
  }

  /** A completed sweep leaves the objects that were alive or fixed. */
  lemma SweptExact(s: State, t: State, r: Ref)
    requires Inv(s) && SweptTo(s, t) && AllWhite(t) && t.mark.Keys == t.objs.Keys
    ensures r in t.objs <==> r in s.objs && (Alive(s, r) || (r in s.mark && s.mark[r].fixed))
  {
    Aspects(s, {});
    InvKeys(s);
    hide Inv;
    if r in t.objs { assert CurWhite(t, r); }
  }

  // ---- From marking to the end of the cycle -------------------------------

  lemma {:induction false} MarkExact(s: State, r: Ref)
    requires Inv(s) && s.g.phase == Propagate && s.g.tmp == {} && Within(s, Strongly(s))
    ensures r in RunUntil(s, Pause).objs <==> Survivor(s, r)
    decreases Rank(s.g.phase), Unmarked(s), Work(s)
  {
    hide Inv, SingleStep, Work, Unmarked, Survivor, Within, Strongly, SweptTo;
    StepFacts(s, Pause);
    var t := SingleStep(s);
    if s.gray != [] {
      MarkStepExact(s, r);
      MarkExact(t, r);
    } else {
      AtomicStepExact(s, r);
      RunSwept(t, Pause);
      EndWhite(RunUntil(t, Pause));
      SweptExact(t, RunUntil(t, Pause), r);
    }
  }

  lemma MarkStepExact(s: State, r: Ref)
    requires Inv(s) && s.g.phase == Propagate && s.gray != [] && Within(s, Strongly(s))
    ensures var t := SingleStep(s);
            t.g.phase == Propagate && Within(t, Strongly(t)) && (Survivor(t, r) <==> Survivor(s, r))
  {
    hide LiveHeap, RootListBut, OpenLists, StringTable, PhaseInv, Colors, StrongReachable, Survivor;
    Aspects(s, {});
    PropagateInv(s);
    InvLists(s);
    PropagateStep(s);
    var t := SingleStep(s);
    StronglyClosed(s);
    PropagateMarkWithin(s, Strongly(s));
    StepFrame(s, t);
    SurvivorSame(s, t, r);
    forall x | x in Strongly(s) ensures x in Strongly(t) { StrongSame(s, t, x); }
  }

  lemma StepFrame(s: State, t: State)
    requires After(s, t)
    ensures t.objs == s.objs && t.g == s.g && t.mark.Keys == s.mark.Keys
    ensures forall x <- s.mark :: t.mark[x].fixed == s.mark[x].fixed
  {}

  lemma AtomicStepExact(s: State, r: Ref)
    requires Inv(s) && s.g.phase == Propagate && s.gray == [] && s.g.tmp == {} && Within(s, Strongly(s))
    ensures var t := SingleStep(s);
            && t.g.phase == SweepString
            && (Survivor(s, r) <==> r in t.objs && (Alive(t, r) || (r in t.mark && t.mark[r].fixed)))
  {
    hide LiveHeap, RootListBut, OpenLists, StringTable, PhaseInv, Colors, StrongReachable, WeakHeld, Within;
    Aspects(s, {});
    InvLists(s);
    AtomicObjs(s);
    if r in s.objs { AtomicAliveExact(s, r); }
    hide Atomic, AtomicMark;
  }

  lemma AtomicObjs(s: State)
    requires Inv(s) && s.g.phase == Propagate && s.gray == [] && ListsGray(s)
    ensures var t := Atomic(s); t.objs.Keys == s.objs.Keys == t.mark.Keys == s.mark.Keys && t.g.phase == SweepString
    ensures forall r <- s.mark :: Atomic(s).mark[r].fixed == s.mark[r].fixed
  {
    hide LiveHeap, RootListBut, OpenLists, StringTable, PhaseInv, Refs, StrongRefs;
    Aspects(s, {});
    InvKeys(s);
    AtomicMarked(s);
    var t := AtomicMark(s);
    MarkedClearing(t);
    ClearTablesMarked(t, t.weak);
    AtomicFrame(s);
    ClearedFixed(t, ClearTables(t, t.weak));
    MarksFixed(s, t);
    hide ClearTables, AtomicMark, ClearedFrom, Clearing;
  }

  lemma MarksFixed(s: State, t: State)
    requires MarksAfter(s, t)
    ensures t.mark.Keys == s.mark.Keys && t.objs == s.objs
    ensures forall r <- s.mark :: t.mark[r].fixed == s.mark[r].fixed
  {}

  lemma ClearedFixed(s: State, t: State)
    requires ClearedFrom(s, t)
    ensures t.objs.Keys == s.objs.Keys == t.mark.Keys == s.mark.Keys
    ensures forall r <- s.mark :: t.mark[r].fixed == s.mark[r].fixed
  {
    hide Refs;
  }

  // ---- A full collection --------------------------------------------------

  /** Freeing dead objects changes no strong reference of a live one. */
  lemma StrongRefsSwept(s: State, t: State, r: Ref)
    requires LiveHeap(s) && SweptTo(s, t) && OpenLists(t) && Alive(s, r)
    ensures r in t.objs && StrongRefs(t, t.objs[r]) == StrongRefs(s, s.objs[r])
  {
    assert Alive(t, r);
    if s.objs[r].Table? {
      TableSwept(s, t, r);
    } else if s.objs[r].Open? && t.objs[r].Open? {
      OpenThread(s, t, r);
    }
  }

  lemma TableSwept(s: State, t: State, r: Ref)
    requires LiveHeap(s) && SweptTo(s, t) && Alive(s, r) && s.objs[r].Table?
    ensures r in t.objs && t.objs[r] == s.objs[r] && Mode(t, s.objs[r].mt) == Mode(s, s.objs[r].mt)
  {
    assert Alive(t, r);
    var o := s.objs[r];
    assert AllAlive(s, Refs(s, o));
    if o.mt.Some? {
      assert Gc(o.mt.value) in Refs(s, o);
      hide Refs;
      assert AliveValue(s, Gc(o.mt.value));
      assert Alive(t, o.mt.value);
    }
  }

  lemma OpenThread(s: State, t: State, r: Ref)
    requires SweptTo(s, t) && OpenLists(t) && r in s.objs && s.objs[r].Open? && r in t.objs && t.objs[r].Open?
    ensures t.objs[r] == s.objs[r] && UpvalValue(t, t.objs[r]) == UpvalValue(s, s.objs[r])
  {
    var th := t.objs[r].thread;
    assert th in t.objs && t.objs[th].Thread?;
  }

  lemma RootsSwept(s: State, t: State)
    requires SweptTo(s, t) && LiveHeap(s)
    ensures SameRoots(s, t)
    ensures forall r :: Root(s, r) ==> Alive(s, r)
  {
    forall r: Ref | Root(s, r) ensures Alive(s, r) {
      if Some(r) in s.g.mts { assert Some(r).Some?; }
    }
  }

  lemma StrongSwept(s: State, t: State, r: Ref)
    requires LiveHeap(s) && SweptTo(s, t) && OpenLists(t)
    ensures StrongReachable(s, r) <==> StrongReachable(t, r)
  {
    hide StrongRefs, OpenLists, LiveHeap;
    RootsSwept(s, t);
    if StrongReachable(s, r) {
      var p :| StrongPath(s, p) && p[|p| - 1] == r;
      var m := iset x | Alive(s, x) && StrongReachable(t, x);
      forall x | Root(s, x) ensures x in m { RootStrong(t, x); }
      hide StrongReachable;
      forall x, q | x in m && x in s.objs && Gc(q) in StrongRefs(s, s.objs[x]) ensures q in m {
        StrongRefsSwept(s, t, x);
        StrongStep(t, x, q);
        StrongRefAlive(s, x, q);
      }
      StrongPathIn(s, p, m);
    }
    if StrongReachable(t, r) {
      StrongWitness(t, r);
      var p :| StrongPath(t, p) && p[|p| - 1] == r;
      var m := iset x | StrongReachable(s, x);
      forall x | Root(t, x) ensures x in m { RootStrong(s, x); }
      forall x, q | x in m && x in t.objs && Gc(q) in StrongRefs(t, t.objs[x]) ensures q in m {
        StrongAlive(s, x);
        StrongRefsSwept(s, t, x);
        StrongStep(s, x, q);
      }
      StrongPathIn(t, p, m);
    }
  }

  lemma StrongWitness(t: State, r: Ref)
    requires StrongReachable(t, r)
    ensures exists p :: StrongPath(t, p) && p[|p| - 1] == r
  {}

  lemma StrongRefAlive(s: State, x: Ref, q: Ref)
    requires LiveHeap(s) && Alive(s, x) && Gc(q) in StrongRefs(s, s.objs[x])
    ensures Alive(s, q)
  {
    StrongSubset(s, s.objs[x], Gc(q));
    hide Refs, StrongRefs;
    assert AllAlive(s, Refs(s, s.objs[x]));
    assert AliveValue(s, Gc(q));
  }

  /** The survivors are the same before and after a pending sweep. */
  lemma SurvivorSwept(s: State, t: State, r: Ref)
    requires LiveHeap(s) && LiveHeap(t) && SweptTo(s, t) && OpenLists(t) && s.mark.Keys == s.objs.Keys
    ensures Survivor(s, r) <==> Survivor(t, r)
  {
    hide LiveHeap, OpenLists, StrongReachable, WeakHeld;
    StrongSwept(s, t, r);
    if StrongReachable(s, r) { StrongAlive(s, r); }
    WeakSwept(s, t, r);
    if WeakHeld(t, r) { HeldPresent(t, r); }
    if r in t.objs { SweptFixed(s, t, r); }
    SweptFixedKept(s, t);
    hide SweptTo;
  }

  lemma SweptFixedKept(s: State, t: State)
    requires SweptTo(s, t)
    ensures forall r <- s.objs :: r in s.mark && s.mark[r].fixed ==> r in t.objs
    ensures forall r <- t.objs :: r in s.objs
    ensures forall r :: Alive(s, r) ==> Alive(t, r)
  {}

  lemma HeldPresent(s: State, r: Ref)
    requires WeakHeld(s, r)
    ensures r in s.objs
  {}

  lemma WeakSwept(s: State, t: State, r: Ref)
    requires LiveHeap(s) && SweptTo(s, t) && OpenLists(t)
    ensures WeakHeld(s, r) <==> WeakHeld(t, r)
  {
    hide LiveHeap, OpenLists, StrongReachable, HeldBy;
    if WeakHeld(s, r) {
      var h :| h in s.objs && StrongReachable(s, h) && s.objs[h].Table?
               && Mode(s, s.objs[h].mt) != (false, false) && HeldBy(s, s.objs[h], r);
      StrongSwept(s, t, h);
      WeakTableSwept(s, t, h, r);
    }
    if WeakHeld(t, r) {
      var h :| h in t.objs && StrongReachable(t, h) && t.objs[h].Table?
               && Mode(t, t.objs[h].mt) != (false, false) && HeldBy(t, t.objs[h], r);
      StrongSwept(s, t, h);
      WeakTableSwept(s, t, h, r);
    }
  }

  /** A live table holds the same strings before and after; they are alive. */
  lemma WeakTableSwept(s: State, t: State, h: Ref, r: Ref)
    requires LiveHeap(s) && SweptTo(s, t) && OpenLists(t) && StrongReachable(s, h)
    requires h in s.objs && (s.objs[h].Table? || (h in t.objs && t.objs[h].Table?))
    ensures h in t.objs && s.objs[h].Table? && t.objs[h] == s.objs[h] && Mode(t, s.objs[h].mt) == Mode(s, s.objs[h].mt)
    ensures HeldBy(s, s.objs[h], r) <==> HeldBy(t, s.objs[h], r)
    ensures HeldBy(s, s.objs[h], r) ==> r in s.objs && r in t.objs && t.objs[r].Str? == s.objs[r].Str?
  {
    hide StrongReachable, OpenLists, LiveHeap, Refs;
    StrongAlive(s, h);
    SweptKind(s, t, h);
    TableSwept(s, t, h);
    forall n <- s.objs[h].nodes | !n.val.Nil? ensures KeyStays(s, n.key) <==> KeyStays(t, n.key) {
      NodeKeySwept(s, t, h, n);
    }
    if HeldBy(s, s.objs[h], r) { HeldAlive(s, h, r); SweptKind(s, t, r); }
  }

  lemma SweptKind(s: State, t: State, r: Ref)
    requires SweptTo(s, t) && Alive(s, r)
    ensures r in t.objs && t.objs[r].Table? == s.objs[r].Table? && t.objs[r].Str? == s.objs[r].Str?
  {
    assert Alive(t, r);
  }

  lemma NodeRefAlive(s: State, h: Ref, n: Node, v: Value)
    requires LiveHeap(s) && Alive(s, h) && s.objs[h].Table? && n in s.objs[h].nodes && !n.val.Nil?
    requires v == n.key || v == n.val
    ensures AliveValue(s, v)
  {
    NodeRefsMember(s.objs[h].nodes, false, false, v);
    assert v in Refs(s, s.objs[h]);
    hide Refs;
    assert AllAlive(s, Refs(s, s.objs[h]));
  }

  lemma NodeKeySwept(s: State, t: State, h: Ref, n: Node)
    requires LiveHeap(s) && SweptTo(s, t) && OpenLists(t) && Alive(s, h) && s.objs[h].Table?
    requires n in s.objs[h].nodes && !n.val.Nil?
    ensures KeyStays(s, n.key) <==> KeyStays(t, n.key)
  {
    hide StrongReachable, OpenLists;
    NodeRefAlive(s, h, n, n.key);
    hide LiveHeap;
    if n.key.Gc? {
      SweptKind(s, t, n.key.ref);
      StrongSwept(s, t, n.key.ref);
    }
  }

  lemma HeldAlive(s: State, h: Ref, r: Ref)
    requires LiveHeap(s) && Alive(s, h) && s.objs[h].Table? && HeldBy(s, s.objs[h], r)
    ensures Alive(s, r)
  {
    if Mode(s, s.objs[h].mt).1 && Gc(r) in s.objs[h].arr {
      assert Gc(r) in Refs(s, s.objs[h]);
      hide Refs;
      assert AllAlive(s, Refs(s, s.objs[h]));
      assert AliveValue(s, Gc(r));
    } else {
      var n :| n in s.objs[h].nodes && !n.val.Nil? && (n.key == Gc(r) || n.val == Gc(r));
      hide LiveHeap;
      NodeRefAlive(s, h, n, Gc(r));
    }
  }

  lemma FirstSweep(s: State)
    requires Inv(s) && s.g.tmp == {}
    ensures SweptTo(s, Finished(s))
  {
    hide Inv, SweptTo, RunUntil, Reset, SingleStep;
    ResetReady(s);
    var t := Reset(s);
    RunSwept(t, Finalize);
    ResetSwept(s, RunUntil(t, Finalize));
  }

  lemma ResetSwept(s: State, u: State)
    requires SweptTo(Reset(s), u)
    ensures SweptTo(s, u)
  {
    forall r ensures Alive(s, r) <==> Alive(Reset(s), r) {}
  }

  /** A full collection, from any state: an object is left exactly if it is
      fixed, strongly reachable, or a string held by a surviving weak table. */
  lemma FullGcExact(s: State, r: Ref)
    requires Inv(s) && s.g.tmp == {}
    ensures r in FullGc(s).objs <==> Survivor(s, r)
  {
    hide Inv, SweptTo, RunUntil, Survivor, Finished;
    FirstSweep(s);
    var s1 := Finished(s);
    InvLive(s);
    InvLive(s1);
    InvKeys(s);
    InvOpens(s1);
    SurvivorSwept(s, s1, r);
    InvKeys(s1);
    MarkRootInv(s1);
    MarkRootStart(s1, r);
    MarkExact(MarkRoot(s1), r);
  }

  lemma InvLive(s: State)
    requires Inv(s)
    ensures LiveHeap(s)
  {
    hide LiveHeap, RootListBut, OpenLists, StringTable, PhaseInv, Colors;
    Aspects(s, {});
  }

  lemma MarkRootStart(s: State, r: Ref)
    requires Inv(s) && s.g.phase == Finalize && s.mark.Keys == s.objs.Keys
    ensures var t := MarkRoot(s);
            t.g == s.g.(phase := Propagate) && Within(t, Strongly(t)) && (Survivor(s, r) <==> Survivor(t, r))
  {
    hide Inv, Extends, StrongReachable, Survivor, MarkRoot;
    var s0 := s.(gray := [], grayagain := [], weak := []);
    var t := MarkRoot(s);
    EndWhite(s);
    StronglyClosed(s);
    assert Within(s, Strongly(s)) by { assert forall x <- s.mark :: CurWhite(s, x); }
    MarkRootWithin(s, Strongly(s));
    MarkRootSpec(s);
    ExtendsFrame(s0, t.(g := s.g));
    ExtendsMarks(s0, t.(g := s.g));
    MarksFixed(s0, t.(g := s.g));
    SurvivorSame(s, t, r);
    forall x | x in Strongly(s) ensures x in Strongly(t) { StrongSame(s, t, x); }
  }

  /** In particular nothing strongly reachable is lost. */
  lemma FullGcKeeps(s: State, r: Ref)
    requires Inv(s) && s.g.tmp == {} && StrongReachable(s, r)
    ensures r in FullGc(s).objs
  {
    hide StrongReachable, FullGc, WeakHeld;
    Aspects(s, {});
    FullGcExact(s, r);
    InvLive(s);
    StrongAlive(s, r);
  }
}
