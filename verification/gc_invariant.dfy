/** The invariant of the collector and its mutator. */
module GcInvariant {
  import opened GcHeap
  import opened GcMark
  import opened GcPropagate
  import opened GcAtomic
  import StringHash

  // ---- Liveness -----------------------------------------------------------

  /** A reference that may be followed: its object exists and is not dead. */
  predicate Alive(s: State, r: Ref) {
    r in s.objs && !IsDead(s, r)
  }

  predicate AliveValue(s: State, v: Value) {
    v.Gc? ==> Alive(s, v.ref)
  }

  predicate AllAlive(s: State, vs: seq<Value>) {
    forall v <- vs :: AliveValue(s, v)
  }

  ghost predicate RootsAlive(s: State) {
    && Alive(s, s.g.main) && Alive(s, s.g.running)
    && AliveValue(s, s.g.registry)
    && (forall m <- s.g.mts :: m.Some? ==> Alive(s, m.value))
    && (forall r <- s.g.tmp :: Alive(s, r))
  }

  /** No dangling and no dead reference in any object that is not dead. */
  ghost predicate LiveHeap(s: State) {
    match s case State(_, _, _, _, _, _) =>
    && RootsAlive(s)
    && forall r <- s.objs :: IsDead(s, r) || AllAlive(s, Refs(s, s.objs[r]))
  }

  // ---- Structure ----------------------------------------------------------

  predicate Rooted(o: Obj) {
    !o.Str? && !o.Open?
  }

  /** `rootgc` links every object that is neither a string nor an open upvalue,
      once; `limbo` has been unlinked but not freed yet. */
  ghost predicate RootListBut(s: State, limbo: set<Ref>) {
    match s case State(_, _, _, _, _, _) =>
    && Distinct(s.g.swept) && Distinct(s.g.rest) && Disjoint(s.g.swept, s.g.rest)
    && forall r :: r in s.g.swept || r in s.g.rest <==> r in s.objs && Rooted(s.objs[r]) && r !in limbo
  }

  /** The open upvalues of a thread: by strictly descending stack level. */
  ghost predicate OpenList(s: State, th: Ref)
    requires th in s.objs && s.objs[th].Thread?
  {
    var l := s.objs[th].open;
    && (forall i :: 0 <= i < |l| ==>
         && l[i] in s.objs && s.objs[l[i]].Open?
         && s.objs[l[i]].thread == th && s.objs[l[i]].level < |s.objs[th].stack|)
    && (forall i, j :: 0 <= i < j < |l| ==> s.objs[l[i]].level > s.objs[l[j]].level)
  }

  ghost predicate OpenLists(s: State) {
    match s case State(_, _, _, _, _, _) =>
    && (forall th <- s.objs :: s.objs[th].Thread? ==> OpenList(s, th))
    && (forall u <- s.objs :: s.objs[u].Open? ==>
         var th := s.objs[u].thread;
         th in s.objs && s.objs[th].Thread? && u in s.objs[th].open)
    && Distinct(s.g.uvhead)
    && (forall u :: u in s.g.uvhead <==> u in s.objs && s.objs[u].Open?)
  }

  function Strings(s: State): set<Ref> {
    set r | r in s.objs && s.objs[r].Str?
  }

  /** The string table: every string is chained once, in the bucket of its hash;
      equal strings are one object. */
  ghost predicate StringTable(s: State) {
    match s case State(_, _, _, _, _, _) =>
    && |s.g.strt| > 0
    && (forall b :: 0 <= b < |s.g.strt| ==> Distinct(s.g.strt[b]))
    && (forall b, r :: 0 <= b < |s.g.strt| && r in s.g.strt[b] ==>
         r in s.objs && s.objs[r].Str? && StringHash.Bucket(s.objs[r].bytes, |s.g.strt|) == b)
    && (forall r <- s.objs :: s.objs[r].Str? ==>
         r in s.g.strt[StringHash.Bucket(s.objs[r].bytes, |s.g.strt|)])
    && (forall q, r :: q in s.objs && r in s.objs && s.objs[q].Str? && s.objs[r].Str? && s.objs[q].bytes == s.objs[r].bytes ==> q == r)
    && s.g.nuse == |Strings(s)|
  }

  // ---- Colours by phase ---------------------------------------------------

  /** Colours suit the kind; only strings and the main thread are fixed. */
  ghost predicate Colors(s: State) {
    match s case State(_, _, _, _, _, _) =>
    && s.mark.Keys == s.objs.Keys
    && s.g.main in s.objs && s.objs[s.g.main].Thread?
    && (forall r <- s.objs :: ColorOk(s.objs[r], s.mark[r].color))
    && (forall r <- s.objs :: s.mark[r].fixed ==> s.objs[r].Str? || r == s.g.main)
  }

  predicate CurWhite(s: State, r: Ref) {
    r in s.mark && s.mark[r].color == White(s.g.cur)
  }

  ghost predicate AllWhite(s: State) {
    forall r <- s.mark :: CurWhite(s, r)
  }

  ghost predicate NoDead(s: State) {
    forall r <- s.mark :: !IsDead(s, r)
  }

  ghost predicate GrayListed(s: State) {
    forall r <- s.objs :: IsGray(s, r) && Container(s.objs[r]) ==> r in s.gray || r in s.grayagain || r in s.weak
  }

  lemma ExtendsGrayListed(s: State, t: State)
    requires Extends(s, t) && GrayListed(s)
    ensures GrayListed(t)
  {
    hide Refs;
  }

  lemma PropagateGrayListed(s: State, t: State)
    requires Propagated(s, t) && GrayListed(s)
    ensures GrayListed(t)
  {
    hide Refs, StrongRefs;
    assert s.gray == [s.gray[0]] + s.gray[1..];
    assert Grown(s, t, s.gray[1..], t.gray);
  }

  /** The propagation invariant: whatever is marked and neither waiting nor put
      off to the atomic step refers to marked objects only. */
  ghost predicate TriColor(s: State) {
    match s case State(_, _, _, _, _, _) =>
    && ListsGray(s)
    && s.mark.Keys == s.objs.Keys
    && Scanned(s, Later(s)) && GrayListed(s)
    && !IsWhite(s, s.g.main) && Marked(s, s.g.registry)
  }

  ghost predicate PhaseInv(s: State) {
    match s.g.phase
    case Pause => AllWhite(s)
    case Finalize => AllWhite(s)
    case Propagate => NoDead(s) && TriColor(s)
    case SweepString =>
      && s.g.sweepstr < |s.g.strt|
      && s.g.swept == []
      && forall b, r :: 0 <= b < s.g.sweepstr && r in s.g.strt[b] ==> CurWhite(s, r)
    case Sweep =>
      && (forall r <- s.objs :: s.objs[r].Str? ==> CurWhite(s, r))
      && (forall r <- s.g.swept :: CurWhite(s, r))
      && (forall u <- s.objs :: s.objs[u].Open? && s.objs[u].thread in s.g.swept ==> CurWhite(s, u))
  }

  ghost predicate Structure(s: State) {
    StructureBut(s, {})
  }

  ghost predicate StructureBut(s: State, limbo: set<Ref>) {
    match s case State(_, _, _, _, _, _) =>
    RootListBut(s, limbo) && OpenLists(s) && StringTable(s)
  }

  ghost predicate Inv(s: State) {
    InvBut(s, {})
  }

  ghost predicate InvBut(s: State, limbo: set<Ref>) {
    forall a: Aspect :: Holds(s, limbo, a)
  }

  /** The four sides of the invariant: how objects are linked, their colours,
      that nothing dangles, and what the phase of the collector adds. */
  datatype Aspect = Linked | Colored | Live | Phased

  ghost predicate Holds(s: State, limbo: set<Ref>, a: Aspect) {
    match a
    case Linked => StructureBut(s, limbo)
    case Colored => Colors(s)
    case Live => LiveHeap(s)
    case Phased => PhaseInv(s)
  }

  lemma Aspects(s: State, limbo: set<Ref>)
    requires InvBut(s, limbo)
    ensures StructureBut(s, limbo) && Colors(s) && LiveHeap(s) && PhaseInv(s)
  {
    hide StructureBut, Colors, LiveHeap, PhaseInv;
    assert Holds(s, limbo, Linked) && Holds(s, limbo, Colored) && Holds(s, limbo, Live) && Holds(s, limbo, Phased);
  }

  /** While marking, a black object has been dealt with. */
  lemma BlackToWhite(s: State, r: Ref, v: Value)
    requires Inv(s) && s.g.phase == Propagate
    requires r in s.objs && IsBlack(s, r) && v in Refs(s, s.objs[r])
    ensures Marked(s, v)
  {
    hide Structure, StructureBut, LiveHeap, Refs;
    Aspects(s, {});
    assert r !in s.gray && r !in s.grayagain && r !in s.weak;
    assert r !in Later(s);
    assert Done(s, r);
  }

  // ---- Frames -------------------------------------------------------------

  /** The kinds whose contents no list depends on. */
  predicate Simple(o: Obj) {
    Rooted(o) && !o.Thread?
  }

  ghost predicate SameKinds(s: State, t: State) {
    match t case State(_, _, _, _, _, _) =>
    && t.objs.Keys == s.objs.Keys
    && forall r <- s.objs :: t.objs[r] == s.objs[r] || (Simple(s.objs[r]) && Simple(t.objs[r]))
  }

  lemma OpenListSame(s: State, t: State, th: Ref)
    requires th in s.objs && s.objs[th].Thread? && OpenList(s, th)
    requires th in t.objs && t.objs[th] == s.objs[th]
    requires forall u <- s.objs[th].open :: u in t.objs && (u in s.objs ==> t.objs[u] == s.objs[u])
    ensures OpenList(t, th)
  {}

  lemma OpenListsSame(s: State, t: State)
    requires OpenLists(s) && SameKinds(s, t) && t.g.uvhead == s.g.uvhead
    ensures OpenLists(t)
  {
    forall th <- t.objs | t.objs[th].Thread? ensures OpenList(t, th) {
      assert OpenList(s, th);
      forall u <- s.objs[th].open ensures t.objs[u] == s.objs[u] && s.objs[u].Open? {
        var i :| 0 <= i < |s.objs[th].open| && s.objs[th].open[i] == u;
      }
      OpenListSame(s, t, th);
    }
  }

  ghost predicate SameStrings(s: State, t: State) {
    match t case State(_, _, _, _, _, _) =>
    && (forall r :: r in s.objs && s.objs[r].Str? ==> r in t.objs && t.objs[r] == s.objs[r])
    && (forall r :: r in t.objs && t.objs[r].Str? ==> r in s.objs && s.objs[r].Str?)
    && t.g.strt == s.g.strt && t.g.nuse == s.g.nuse
  }

  lemma StringTableSame(s: State, t: State)
    requires StringTable(s) && SameStrings(s, t)
    ensures StringTable(t)
  {
    assert Strings(t) == Strings(s);
    assert forall b, r :: 0 <= b < |s.g.strt| && r in s.g.strt[b] ==> t.objs[r] == s.objs[r];
  }

  lemma StructureSameKinds(s: State, t: State)
    requires Structure(s) && SameKinds(s, t)
    requires t.g == s.g.(phase := t.g.phase, cur := t.g.cur, sweepstr := t.g.sweepstr, registry := t.g.registry,
                         running := t.g.running, mts := t.g.mts, tmp := t.g.tmp)
    ensures Structure(t)
  {
    hide OpenLists, StringTable;
    OpenListsSame(s, t);
    assert SameStrings(s, t);
    StringTableSame(s, t);
  }

  // ---- Steps that only mark -----------------------------------------------

  lemma StructureFrame(s: State, t: State)
    requires Structure(s)
    requires t.objs == s.objs
    requires t.g == s.g.(phase := t.g.phase, cur := t.g.cur, sweepstr := t.g.sweepstr)
    ensures Structure(t)
  {}

  lemma MarkStepInv(s: State, t: State)
    requires Structure(s) && Colors(s) && LiveHeap(s) && NoDead(s)
    requires MarksAfter(s, t.(g := s.g)) && t.g == s.g.(phase := t.g.phase)
    ensures Structure(t) && Colors(t) && LiveHeap(t) && NoDead(t)
  {
    StructureFrame(s, t);
    LiveFrame(s, t);
  }

  lemma LiveFrame(s: State, t: State)
    requires LiveHeap(s) && t.objs == s.objs && t.mark.Keys == s.mark.Keys
    requires t.g == s.g.(phase := t.g.phase)
    requires forall r <- s.mark :: t.mark[r].color.White? ==> t.mark[r].color == s.mark[r].color
    requires NoDead(s) && s.mark.Keys == s.objs.Keys
    ensures LiveHeap(t) && NoDead(t)
  {
    forall r ensures Alive(s, r) ==> Alive(t, r) {}
    forall r <- t.objs ensures AllAlive(t, Refs(t, t.objs[r])) {
      RefsSame(s, t, s.objs[r]);
      assert AllAlive(s, Refs(s, s.objs[r]));
    }
  }

  /** Starting a collection: from pause, or from finalize in a full one. */
  lemma MarkRootInv(s: State)
    requires Inv(s) && s.mark.Keys == s.objs.Keys && (s.g.phase == Pause || s.g.phase == Finalize)
    ensures Inv(MarkRoot(s))
  {
    hide Extends, Refs, MarksAfter, Structure, Colors, LiveHeap, Scanned, Done, ListsGray, Later, MarkRoot, StructureBut;
    Aspects(s, {});
    ColorsKeys(s);
    var s0 := s.(gray := [], grayagain := [], weak := []);
    var t := MarkRoot(s);
    var t0 := t.(g := s.g);
    MarkRootSpec(s);
    assert forall r <- s.mark :: CurWhite(s, r);
    MarksFromWhite(s, s0, t0);
    MarkStepInv(s, t);
    MarkRootTriColor(s0, t0, t);
  }

  lemma MarkRootTriColor(s0: State, t0: State, t: State)
    requires forall r <- s0.mark :: CurWhite(s0, r)
    requires s0.mark.Keys == s0.objs.Keys && s0.gray == [] && s0.grayagain == [] && s0.weak == []
    requires Extends(s0, t0) && t == t0.(g := t.g)
    requires !IsWhite(t, t.g.main) && Marked(t, t.g.registry)
    ensures TriColor(t)
  {
    hide Extends, Refs, Done, ListsGray;
    AllWhiteScanned(s0);
    ExtendsScanned(s0, t0, Later(s0));
    ExtendsListsGray(s0, t0);
    ExtendsFrame(s0, t0);
    ExtendsGrayListed(s0, t0);
    LaterGrows(s0, t0);
    ScannedMore(t0, Later(s0), Later(t0));
    ScannedPhase(t0, t);
  }

  lemma ColorsKeys(s: State)
    requires Colors(s)
    ensures s.mark.Keys == s.objs.Keys
  {}

  lemma MarksFromWhite(s: State, s0: State, t: State)
    requires s0 == s.(gray := [], grayagain := [], weak := []) && Extends(s0, t)
    ensures MarksAfter(s, t)
  {
    ExtendsMarks(s0, t);
  }

  lemma AllWhiteScanned(s: State)
    requires forall r <- s.mark :: CurWhite(s, r)
    requires s.mark.Keys == s.objs.Keys && s.gray == [] && s.grayagain == [] && s.weak == []
    ensures ListsGray(s) && Scanned(s, Later(s))
  {
    hide Done;
  }

  lemma ScannedPhase(s: State, t: State)
    requires ListsGray(s) && Scanned(s, Later(s)) && t == s.(g := t.g)
    ensures ListsGray(t) && t.mark.Keys == t.objs.Keys && Scanned(t, Later(t))
  {
    forall r <- t.mark | !IsWhite(t, r)
      ensures r in t.gray || r in Later(t) || Done(t, r)
    {
      RefsSame(s, t, s.objs[r]);
    }
  }

  lemma PropagateInv(s: State)
    requires Inv(s) && s.g.phase == Propagate && s.gray != []
    ensures Ready(s) && Inv(PropagateMark(s))
  {
    Aspects(s, {});
    HeadReady(s);
    PropagateStep(s);
    var t := PropagateMark(s);
    AfterMarks(s, t);
    MarkStepInv(s, t);
    PropagateScanned(s, t, Later(s));
    PropagateGrayListed(s, t);
    LaterGrows(s, t);
    ScannedMore(t, Later(s), Later(t));
    MarksNonWhite(s, t);
  }

  lemma LaterGrows(s: State, t: State)
    requires After(s, t) || Extends(s, t)
    ensures Later(s) <= Later(t)
  {}

  // ---- The atomic step ----------------------------------------------------

  /** When marking is over, a weak table is either strong after all or ready to
      be cleared; everything else that is marked has marked references. */
  lemma MarkedClearing(t: State)
    requires ListsGray(t) && t.gray == [] && t.mark.Keys == t.objs.Keys && Scanned(t, {})
    ensures Clearing(t, t.weak)
    ensures forall h <- t.weak :: h in t.objs && t.objs[h].Table? && Clearable(t, h)
  {
    forall h <- t.weak ensures h in t.objs && t.objs[h].Table? && Clearable(t, h) {
      assert Done(t, h);
      DoneClearable(t, h);
    }
    forall r <- t.objs | !IsWhite(t, r)
      ensures AllMarked(t, Refs(t, t.objs[r])) || (r in t.weak && Clearable(t, r))
    {
      assert Done(t, r);
    }
  }

  lemma DoneClearable(t: State, h: Ref)
    requires h in t.objs && h in t.mark && t.objs[h].Table? && Done(t, h)
    ensures Clearable(t, h)
  {
    var (kw, vw) := (t.mark[h].keyWeak, t.mark[h].valueWeak);
    if AllMarked(t, Refs(t, t.objs[h])) {
      forall v <- Contents(t.objs[h], kw, vw) ensures Marked(t, v) {
        ContentsSubset(t.objs[h], kw, vw, v);
      }
    }
  }

  lemma ClearedInv(s: State, t: State)
    requires ClearedFrom(s, t) && Structure(s) && Colors(s) && LiveHeap(s) && NoDead(s)
    ensures Structure(t) && Colors(t) && LiveHeap(t) && NoDead(t)
  {
    ClearedShape(s, t);
    StructureSameKinds(s, t);
    ClearedColors(s, t);
    ClearedLive(s, t);
  }

  lemma ClearedShape(s: State, t: State)
    requires ClearedFrom(s, t)
    ensures SameKinds(s, t) && t.g == s.g
  {}

  lemma ClearedColors(s: State, t: State)
    requires ClearedFrom(s, t) && Colors(s)
    ensures Colors(t)
  {
    hide Refs;
  }

  lemma ClearedLive(s: State, t: State)
    requires ClearedFrom(s, t) && LiveHeap(s) && NoDead(s)
    ensures LiveHeap(t) && NoDead(t)
  {
    forall r ensures Alive(s, r) ==> Alive(t, r) {}
    forall r <- t.objs ensures AllAlive(t, Refs(t, t.objs[r])) {
      assert AllAlive(s, Refs(s, s.objs[r]));
      if t.objs[r] == s.objs[r] { RefsCleared(s, t, s.objs[r]); }
    }
  }

  /** Flipping the current white makes exactly the unmarked objects dead. */
  lemma FlipInv(s: State, t: State)
    requires Structure(s) && Colors(s) && LiveHeap(s) && NoDead(s) && Clearing(s, [])
    requires s.g.tmp == {}
    requires !IsWhite(s, s.g.main) && Marked(s, s.g.registry) && !IsWhite(s, s.g.running)
    requires forall m <- s.g.mts :: m.Some? ==> !IsWhite(s, m.value)
    requires t == s.(g := s.g.(cur := !s.g.cur, sweepstr := 0, swept := [], rest := s.g.swept + s.g.rest, phase := SweepString))
    ensures Inv(t)
  {
    hide RootListBut, OpenLists, StringTable, LiveHeap, Clearing, Refs;
    FlipStructure(s, t);
    FlipLive(s, t);
  }

  lemma FlipLive(s: State, t: State)
    requires s.mark.Keys == s.objs.Keys && LiveHeap(s) && NoDead(s) && Clearing(s, [])
    requires !IsWhite(s, s.g.main) && Marked(s, s.g.registry) && !IsWhite(s, s.g.running)
    requires forall m <- s.g.mts :: m.Some? ==> !IsWhite(s, m.value)
    requires t.objs == s.objs && t.mark == s.mark && t.g.cur == !s.g.cur
    requires t.g.main == s.g.main && t.g.running == s.g.running && t.g.registry == s.g.registry
    requires t.g.mts == s.g.mts && t.g.tmp == {}
    ensures LiveHeap(t)
  {
    forall r ensures Alive(t, r) <==> Alive(s, r) && !IsWhite(s, r) {}
    forall r <- t.objs | !IsDead(t, r) ensures AllAlive(t, Refs(t, t.objs[r])) {
      RefsSame(s, t, s.objs[r]);
      hide Refs;
      assert AllAlive(s, Refs(s, s.objs[r])) && AllMarked(s, Refs(s, s.objs[r]));
    }
  }

  lemma OtherLists(s: State, t: State)
    requires Structure(s) && t.objs == s.objs
    requires t.g.strt == s.g.strt && t.g.nuse == s.g.nuse && t.g.uvhead == s.g.uvhead
    ensures OpenLists(t) && StringTable(t)
  {
    assert SameKinds(s, t);
    OpenListsSame(s, t);
    assert SameStrings(s, t);
    StringTableSame(s, t);
  }

  lemma FlipStructure(s: State, t: State)
    requires Structure(s)
    requires t == s.(g := s.g.(cur := t.g.cur, sweepstr := t.g.sweepstr, swept := [], rest := s.g.swept + s.g.rest, phase := t.g.phase))
    ensures Structure(t) && |t.g.strt| > 0
  {
    hide OpenLists, StringTable;
    var a, b := s.g.swept, s.g.rest;
    forall i, j | 0 <= i < j < |a + b| ensures (a + b)[i] != (a + b)[j] {
      if i < |a| <= j { assert a[i] in a && b[j - |a|] in b; }
    }
    assert forall r :: r in a + b <==> r in a || r in b;
    OtherLists(s, t);
  }

  lemma AtomicInv(s: State)
    requires Inv(s) && s.g.phase == Propagate && s.gray == [] && s.g.tmp == {}
    ensures ListsGray(s) && Inv(Atomic(s))
  {
    Aspects(s, {});
    AtomicMarked(s);
    var t := AtomicMark(s);
    MarkStepInv(s, t);
    MarkedClearing(t);
    ClearTablesMarked(t, t.weak);
    var u := ClearTables(t, t.weak);
    ClearedInv(t, u);
    ClearedRoots(t, u);
    FlipInv(u, Atomic(s));
  }

  lemma AtomicMarked(s: State)
    requires Inv(s) && s.g.phase == Propagate && s.gray == []
    ensures ListsGray(s)
    ensures var t := AtomicMark(s);
            && t.mark.Keys == t.objs.Keys && Scanned(t, {})
            && MarksAfter(s, t) && t.g == s.g
            && !IsWhite(t, s.g.main) && Marked(t, s.g.registry) && !IsWhite(t, s.g.running)
            && (forall m <- s.g.mts :: m.Some? ==> !IsWhite(t, m.value))
  {
    hide Done, Refs, MarksAfter;
    Aspects(s, {});
    AtomicMarkDone(s);
    MarksFrame(s, AtomicMark(s));
  }

  lemma MarksFrame(s: State, t: State)
    requires MarksAfter(s, t)
    ensures t.g == s.g && t.objs == s.objs
  {}

  lemma ClearedRoots(s: State, t: State)
    requires ClearedFrom(s, t)
    ensures t.g == s.g
    ensures forall r :: !IsWhite(s, r) ==> !IsWhite(t, r)
    ensures forall v :: Marked(s, v) ==> Marked(t, v)
  {}
}
