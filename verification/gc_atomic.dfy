/** The end of the mark phase: `markroot`, `remarkupvals`, `cleartable` and
    `atomic`. */
module GcAtomic {
  import opened GcHeap
  import opened GcMark
  import opened GcPropagate

  // ---- Roots --------------------------------------------------------------

  function MarkMts(s: State, mts: seq<Option<Ref>>): (t: State)
    requires s.mark.Keys == s.objs.Keys
    ensures Extends(s, t)
    ensures forall m <- mts :: m.Some? ==> !IsWhite(t, m.value)
    decreases |mts|
  {
    if mts == [] then s else
      var s1 := MarkOpt(s, mts[0]);
      var t := MarkMts(s1, mts[1..]);
      ExtendsTrans(s, s1, t);
      assert AllMarked(s1, OptRef(mts[0]));
      ExtendsMarked(s1, t, OptRef(mts[0]));
      assert mts[0].Some? ==> Marked(t, OptRef(mts[0])[0]);
      t
  }

  /** The main thread, and its globals before its stack. */
  function MarkMain(s: State): (t: State)
    requires s.mark.Keys == s.objs.Keys
    ensures Extends(s, t) && !IsWhite(t, s.g.main)
  {
    var s1 := MarkRef(s, s.g.main);
    if s.g.main in s.objs && s.objs[s.g.main].Thread? then
      var t := MarkValue(s1, s.objs[s.g.main].gt);
      ExtendsTrans(s, s1, t);
      ExtendsMarked(s1, t, [Gc(s.g.main)]);
      assert Gc(s.g.main) in [Gc(s.g.main)];
      t
    else s1
  }

  /** `markroot`: starts a new collection. */
  function MarkRoot(s: State): (t: State)
    requires s.mark.Keys == s.objs.Keys
  {
    var s1 := MarkMain(s.(gray := [], grayagain := [], weak := []));
    var t := MarkMts(MarkValue(s1, s.g.registry), s.g.mts);
    t.(g := t.g.(phase := Propagate))
  }

  lemma MarkRootSpec(s: State)
    requires s.mark.Keys == s.objs.Keys
    ensures var t := MarkRoot(s); var s0 := s.(gray := [], grayagain := [], weak := []);
            && t.g == s.g.(phase := Propagate)
            && Extends(s0, t.(g := s.g))
            && !IsWhite(t, s.g.main) && Marked(t, s.g.registry)
  {
    hide Extends, MarkMain;
    var s0 := s.(gray := [], grayagain := [], weak := []);
    var s2 := MarkMain(s0);
    ExtendsFrame(s0, s2);
    var s3 := MarkValue(s2, s.g.registry);
    ExtendsTrans(s0, s2, s3);
    ExtendsFrame(s2, s3);
    var s4 := MarkMts(s3, s.g.mts);
    ExtendsTrans(s0, s3, s4);
    ExtendsFrame(s3, s4);
    ExtendsMarked(s2, s3, [Gc(s.g.main)]);
    ExtendsMarked(s3, s4, [Gc(s.g.main), s.g.registry]);
    assert forall v <- [Gc(s.g.main), s.g.registry] :: Marked(s4, v);
    assert Gc(s.g.main) in [Gc(s.g.main), s.g.registry];
  }

  /** `remarkupvals`: the values of marked open upvalues, whose threads may be
      unreachable. */
  function RemarkUpvals(s: State, uvs: seq<Ref>): (t: State)
    requires s.mark.Keys == s.objs.Keys
    ensures Extends(s, t)
    ensures forall u <- uvs :: u in s.objs && IsGray(s, u) ==> Marked(t, UpvalValue(s, s.objs[u]))
    decreases |uvs|
  {
    if uvs == [] then s else
      var u := uvs[0];
      var s1 := if IsGray(s, u) then MarkValue(s, UpvalValue(s, s.objs[u])) else s;
      assert Extends(s, s1);
      ExtendsFrame(s, s1);
      var t := RemarkUpvals(s1, uvs[1..]);
      RemarkStep(s, s1, t, uvs);
      t
  }

  lemma RemarkStep(s: State, s1: State, t: State, uvs: seq<Ref>)
    requires uvs != [] && s.mark.Keys == s.objs.Keys
    requires Extends(s, s1) && Extends(s1, t) && s1.objs == s.objs
    requires uvs[0] in s.objs && IsGray(s, uvs[0]) ==> Marked(s1, UpvalValue(s, s.objs[uvs[0]]))
    requires forall u <- uvs[1..] :: u in s1.objs && IsGray(s1, u) ==> Marked(t, UpvalValue(s1, s1.objs[u]))
    ensures Extends(s, t)
    ensures forall u <- uvs :: u in s.objs && IsGray(s, u) ==> Marked(t, UpvalValue(s, s.objs[u]))
  {
    hide Extends;
    ExtendsTrans(s, s1, t);
    ExtendsFrame(s, s1);
    forall u <- uvs | u in s.objs && IsGray(s, u)
      ensures Marked(t, UpvalValue(s, s.objs[u]))
    {
      if u == uvs[0] {
        ExtendsMarked(s1, t, [UpvalValue(s, s.objs[u])]);
        assert UpvalValue(s, s.objs[u]) in [UpvalValue(s, s.objs[u])];
      } else {
        assert u in uvs[1..];
        RefsSame(s, s1, s.objs[u]);
      }
    }
  }

  // ---- Weak tables --------------------------------------------------------

  /** `iscleared`: a white object that is not a string. */
  predicate Cleared(s: State, v: Value) {
    v.Gc? && v.ref in s.objs && !s.objs[v.ref].Str? && IsWhite(s, v.ref)
  }

  function ClearArray(s: State, vs: seq<Value>): (r: seq<Value>)
    ensures |r| == |vs|
    ensures forall i :: 0 <= i < |vs| ==> r[i] == if Cleared(s, vs[i]) then Nil else vs[i]
  {
    seq(|vs|, i requires 0 <= i < |vs| => if Cleared(s, vs[i]) then Nil else vs[i])
  }

  function ClearNode(s: State, n: Node): Node {
    if !n.val.Nil? && (Cleared(s, n.key) || Cleared(s, n.val))
    then Node(if n.key.Gc? then DeadKey else n.key, Nil) else n
  }

  function ClearNodes(s: State, ns: seq<Node>): (r: seq<Node>)
    ensures |r| == |ns|
    ensures forall i :: 0 <= i < |ns| ==> r[i] == ClearNode(s, ns[i])
  {
    seq(|ns|, i requires 0 <= i < |ns| => ClearNode(s, ns[i]))
  }

  /** Is `v` handed to `iscleared` when table `o` is cleared?  The value of an
      entry is only looked at when its key stays. */
  ghost predicate Tested(s: State, o: Obj, valueWeak: bool, v: Value)
    requires o.Table?
  {
    || (valueWeak && v in o.arr)
    || exists n <- o.nodes :: !n.val.Nil? && (v == n.key || (v == n.val && !Cleared(s, n.key)))
  }

  function TestedStrings(s: State, o: Obj, valueWeak: bool): (ts: set<Ref>)
    requires o.Table?
    ensures forall r :: r in ts <==> r in s.objs && s.objs[r].Str? && Tested(s, o, valueWeak, Gc(r))
  {
    set r | r in s.objs && s.objs[r].Str? &&
            ((valueWeak && Gc(r) in o.arr) ||
             exists n <- o.nodes :: !n.val.Nil? && (Gc(r) == n.key || (Gc(r) == n.val && !Cleared(s, n.key))))
  }

  function MarkStrings(m: map<Ref, Mark>, rs: set<Ref>): (t: map<Ref, Mark>)
    ensures t.Keys == m.Keys
  {
    map r | r in m :: if r in rs && m[r].color.White? then m[r].(color := Gray) else m[r]
  }

  /** `cleartable` for one weak table: its strings are marked, entries with a
      collected key or value are emptied. */
  function ClearTable(s: State, h: Ref): State
    requires s.mark.Keys == s.objs.Keys && h in s.objs && s.objs[h].Table?
  {
    var o := s.objs[h];
    var vw := s.mark[h].valueWeak;
    var o' := o.(arr := if vw then ClearArray(s, o.arr) else o.arr, nodes := ClearNodes(s, o.nodes));
    s.(objs := s.objs[h := o'], mark := MarkStrings(s.mark, TestedStrings(s, o, vw)))
  }

  /** Clearing touches the contents of tables and the colour of strings. */
  ghost predicate ClearedFrom(s: State, t: State) {
    match t case State(_, _, _, _, _, _) =>
    && t == s.(objs := t.objs, mark := t.mark)
    && s.mark.Keys == s.objs.Keys == t.objs.Keys == t.mark.Keys
    && (forall r <- s.objs :: t.objs[r] == s.objs[r] ||
         (s.objs[r].Table? && t.objs[r].Table? && t.objs[r].mt == s.objs[r].mt && t.objs[r].mode == s.objs[r].mode
          && (forall v <- Refs(t, t.objs[r]) :: v.Gc? ==> v in Refs(s, s.objs[r]))))
    && (forall r <- s.mark :: t.mark[r] == s.mark[r] ||
         (s.objs[r].Str? && s.mark[r].color.White? && t.mark[r] == s.mark[r].(color := Gray)))
  }

  function ClearTables(s: State, l: seq<Ref>): (t: State)
    requires s.mark.Keys == s.objs.Keys
    requires forall h <- l :: h in s.objs && s.objs[h].Table?
    decreases |l|
  {
    if l == [] then s else
      ClearTableFrame(s, l[0]);
      ClearTables(ClearTable(s, l[0]), l[1..])
  }

  /** What is left in a cleared table was there before, and was not collected. */
  lemma ClearedArray(s: State, o: Obj, vs: seq<Value>, v: Value)
    requires v in ClearArray(s, vs) && v.Gc?
    ensures v in vs && !Cleared(s, v)
  {
    var i :| 0 <= i < |vs| && ClearArray(s, vs)[i] == v;
  }

  lemma ClearedNodes(s: State, ns: seq<Node>, v: Value)
    requires v in NodeRefs(ClearNodes(s, ns), false, false)
    ensures exists n <- ns :: !n.val.Nil? && (v == n.key || v == n.val) && !Cleared(s, n.key) && !Cleared(s, n.val)
    ensures v in NodeRefs(ns, false, false)
  {
    NodeRefsMember(ClearNodes(s, ns), false, false, v);
    var n :| n in ClearNodes(s, ns) && !n.val.Nil? && (v == n.key || v == n.val);
    var i :| 0 <= i < |ns| && ClearNodes(s, ns)[i] == n;
    assert n == ClearNode(s, ns[i]) && ns[i] in ns;
    NodeRefsMember(ns, false, false, v);
  }

  lemma ClearTableRefs(s: State, h: Ref, v: Value)
    requires s.mark.Keys == s.objs.Keys && h in s.objs && s.objs[h].Table? && v.Gc?
    requires var t := ClearTable(s, h); v in Refs(t, t.objs[h])
    ensures v in Refs(s, s.objs[h])
  {
    hide NodeRefs, Backwards, TestedStrings;
    var o, o' := s.objs[h], ClearTable(s, h).objs[h];
    if v in o'.arr {
      if s.mark[h].valueWeak { ClearedArray(s, o, o.arr, v); }
    } else if v in NodeRefs(o'.nodes, false, false) {
      ClearedNodes(s, o.nodes, v);
    }
  }

  lemma ClearTableFrame(s: State, h: Ref)
    requires s.mark.Keys == s.objs.Keys && h in s.objs && s.objs[h].Table?
    ensures ClearedFrom(s, ClearTable(s, h))
  {
    hide Refs, TestedStrings, ClearNodes, ClearArray, Tested;
    var t := ClearTable(s, h);
    forall v <- Refs(t, t.objs[h]) | v.Gc? ensures v in Refs(s, s.objs[h]) {
      ClearTableRefs(s, h, v);
    }
  }

  // ---- Clearing leaves no collected reference -----------------------------

  /** A weak table whose strong part, by its own weak bits, is marked. */
  ghost predicate Clearable(s: State, r: Ref)
    requires r in s.objs && r in s.mark
  {
    match s case State(_, _, _, _, _, _) =>
    && s.objs[r].Table?
    && AllMarked(s, OptRef(s.objs[r].mt))
    && AllMarked(s, Contents(s.objs[r], s.mark[r].keyWeak, s.mark[r].valueWeak))
  }

  ghost predicate Clearing(s: State, l: seq<Ref>)
    requires s.mark.Keys == s.objs.Keys
  {
    forall r <- s.objs :: IsWhite(s, r) || AllMarked(s, Refs(s, s.objs[r])) || (r in l && Clearable(s, r))
  }

  /** After `h` is cleared every reference left in it is to a marked object. */
  lemma ClearTableMarked(s: State, h: Ref)
    requires s.mark.Keys == s.objs.Keys && h in s.objs && Clearable(s, h)
    ensures var t := ClearTable(s, h); AllMarked(t, Refs(t, t.objs[h]))
  {
    hide NodeRefs, Backwards;
    var t := ClearTable(s, h);
    var o, o' := s.objs[h], t.objs[h];
    forall v <- Refs(t, o') | v.Gc? ensures Marked(t, v) {
      if v in OptRef(o.mt) {
      } else if v in o'.arr {
        if s.mark[h].valueWeak {
          ClearedArray(s, o, o.arr, v);
          TestedMarked(s, h, v);
        } else {
          assert v in Contents(o, s.mark[h].keyWeak, false);
        }
      } else {
        ClearedNodes(s, o.nodes, v);
        TestedMarked(s, h, v);
      }
    }
  }

  lemma TestedMarked(s: State, h: Ref, v: Value)
    requires s.mark.Keys == s.objs.Keys && h in s.objs && s.objs[h].Table? && v.Gc?
    requires Tested(s, s.objs[h], s.mark[h].valueWeak, v) && !Cleared(s, v)
    ensures Marked(ClearTable(s, h), v)
  {
    hide NodeRefs, Backwards, Contents;
    if v.ref in s.objs && s.objs[v.ref].Str? {
      assert v == Gc(v.ref);
      assert v.ref in TestedStrings(s, s.objs[h], s.mark[h].valueWeak);
    }
  }

  lemma ClearKeeps(s: State, t: State, r: Ref)
    requires ClearedFrom(s, t) && r in s.objs && AllMarked(s, Refs(s, s.objs[r]))
    ensures AllMarked(t, Refs(t, t.objs[r]))
  {
    forall v <- Refs(t, t.objs[r]) ensures Marked(t, v) {
      if t.objs[r] == s.objs[r] {
        RefsCleared(s, t, s.objs[r]);
      }
      if v.Gc? { assert v in Refs(s, s.objs[r]); }
    }
  }

  lemma RefsCleared(s: State, t: State, o: Obj)
    requires ClearedFrom(s, t)
    ensures Refs(t, o) == Refs(s, o)
  {
    hide Contents;
  }

  lemma {:induction false} ClearTablesMarked(s: State, l: seq<Ref>)
    requires s.mark.Keys == s.objs.Keys && Distinct(l) && Clearing(s, l)
    requires forall h <- l :: h in s.objs && s.objs[h].Table? && Clearable(s, h)
    ensures var t := ClearTables(s, l); ClearedFrom(s, t) && Clearing(t, [])
    decreases |l|
  {
    if l == [] {
      ClearedRefl(s);
    } else {
      var h, rest := l[0], l[1..];
      var t := ClearTable(s, h);
      assert h in l;
      ClearTableFrame(s, h);
      ClearTableMarked(s, h);
      TailMembers(l);
      forall r <- rest ensures r in t.objs && t.objs[r].Table? && Clearable(t, r) {
        ClearableKept(s, h, r);
      }
      ClearingStep(s, t, l);
      ClearTablesMarked(t, rest);
      ClearedTrans(s, t, ClearTables(t, rest));
    }
  }

  lemma ClearedRefl(s: State)
    requires s.mark.Keys == s.objs.Keys
    ensures ClearedFrom(s, s)
  {}

  lemma ClearedFrame(s: State, t: State, u: State)
    requires ClearedFrom(s, t) && ClearedFrom(t, u)
    ensures u == s.(objs := u.objs, mark := u.mark) && s.mark.Keys == s.objs.Keys == u.objs.Keys == u.mark.Keys
    ensures forall r <- s.mark :: u.mark[r] == s.mark[r] ||
              (s.objs[r].Str? && s.mark[r].color.White? && u.mark[r] == s.mark[r].(color := Gray))
  {
    hide Refs;
  }

  /** What clearing makes of one object. */
  ghost predicate ClearedOne(s: State, t: State, r: Ref) {
    && r in s.objs && r in t.objs
    && (t.objs[r] == s.objs[r] ||
        (s.objs[r].Table? && t.objs[r].Table? && t.objs[r].mt == s.objs[r].mt && t.objs[r].mode == s.objs[r].mode
         && (forall v <- Refs(t, t.objs[r]) :: v.Gc? ==> v in Refs(s, s.objs[r]))))
  }

  lemma ClearedObject(s: State, t: State, u: State, r: Ref)
    requires ClearedFrom(s, t) && ClearedFrom(t, u) && r in s.objs
    ensures ClearedOne(s, u, r)
  {
    hide Contents, Refs;
    if t.objs[r] == s.objs[r] { RefsCleared(s, t, s.objs[r]); }
    if t.objs[r] == u.objs[r] { RefsCleared(t, u, t.objs[r]); }
  }

  lemma ClearedTrans(s: State, t: State, u: State)
    requires ClearedFrom(s, t) && ClearedFrom(t, u)
    ensures ClearedFrom(s, u)
  {
    hide ClearedFrom, ClearedOne;
    ClearedFrame(s, t, u);
    forall r <- s.objs ensures ClearedOne(s, u, r) { ClearedObject(s, t, u, r); }
    ClearedAll(s, u);
  }

  lemma ClearedAll(s: State, t: State)
    requires t == s.(objs := t.objs, mark := t.mark) && s.mark.Keys == s.objs.Keys == t.objs.Keys == t.mark.Keys
    requires forall r <- s.objs :: ClearedOne(s, t, r)
    requires forall r <- s.mark :: t.mark[r] == s.mark[r] ||
               (s.objs[r].Str? && s.mark[r].color.White? && t.mark[r] == s.mark[r].(color := Gray))
    ensures ClearedFrom(s, t)
  {
    hide Refs;
  }

  lemma ClearableKept(s: State, h: Ref, r: Ref)
    requires s.mark.Keys == s.objs.Keys && h in s.objs && s.objs[h].Table?
    requires r in s.objs && r != h && Clearable(s, r)
    ensures var t := ClearTable(s, h); r in t.objs && r in t.mark && Clearable(t, r)
  {
    hide Contents;
  }

  lemma ClearingStep(s: State, t: State, l: seq<Ref>)
    requires l != [] && s.mark.Keys == s.objs.Keys && Clearing(s, l)
    requires l[0] in s.objs && s.objs[l[0]].Table? && t == ClearTable(s, l[0]) && ClearedFrom(s, t)
    requires AllMarked(t, Refs(t, t.objs[l[0]]))
    ensures Clearing(t, l[1..])
  {
    hide Contents;
    forall r <- t.objs | !IsWhite(t, r) && r != l[0]
      ensures AllMarked(t, Refs(t, t.objs[r])) || (r in l[1..] && Clearable(t, r))
    {
      if s.objs[r].Str? {
      } else if AllMarked(s, Refs(s, s.objs[r])) {
        ClearKeeps(s, t, r);
      } else {
        ClearableKept(s, l[0], r);
      }
    }
  }

  // ---- The atomic step ----------------------------------------------------

  /** First part of `atomic`: marked open upvalues, then what write barriers
      caught. */
  function RemarkOpen(s: State): (t: State)
    requires ListsGray(s)
    ensures ListsGray(t) && t.gray == []
  {
    var s1 := RemarkUpvals(s, s.g.uvhead);
    ExtendsListsGray(s, s1);
    PropagateAll(s1)
  }

  /** Second part: the weak tables again, the running thread, the metatables of
      the basic types. */
  function RemarkWeak(s: State): (t: State)
    requires ListsGray(s) && s.gray == []
    ensures ListsGray(t) && t.gray == []
  {
    var s1 := s.(gray := s.weak, weak := []);
    var s2 := MarkRef(s1, s1.g.running);
    ExtendsListsGray(s1, s2);
    var s3 := MarkMts(s2, s2.g.mts);
    ExtendsListsGray(s2, s3);
    PropagateAll(s3)
  }

  /** Third part: the objects a backward barrier or a thread put in `grayagain`. */
  function RemarkAgain(s: State): (t: State)
    requires ListsGray(s) && s.gray == []
    ensures ListsGray(t) && t.gray == []
  {
    PropagateAll(s.(gray := s.grayagain, grayagain := []))
  }

  /** Marking, everything up to the clearing of weak tables. */
  function AtomicMark(s: State): (t: State)
    requires ListsGray(s)
    ensures ListsGray(t) && t.gray == []
  {
    RemarkAgain(RemarkWeak(RemarkOpen(s)))
  }

  /** `atomic`: finish marking, clear weak tables, flip the current white and
      start sweeping. */
  function Atomic(s: State): State
    requires ListsGray(s)
  {
    var t := AtomicMark(s);
    var u := ClearTables(t, t.weak);
    u.(g := u.g.(cur := !u.g.cur, sweepstr := 0, swept := [], rest := u.g.swept + u.g.rest, phase := SweepString))
  }

  lemma ListsKeys(s: State)
    requires ListsGray(s)
    ensures s.mark.Keys == s.objs.Keys
  {}

  lemma ExtendsListsGray(s: State, t: State)
    requires Extends(s, t) && ListsGray(s)
    ensures ListsGray(t)
  {
    hide Handled;
    assert forall r :: r in s.gray || r in s.grayagain || r in s.weak ==> t.mark[r] == s.mark[r];
  }

  lemma ExtendsScanned(s: State, t: State, later: set<Ref>)
    requires Extends(s, t) && ListsGray(s) && Scanned(s, later)
    ensures t.mark.Keys == t.objs.Keys && Scanned(t, later)
  {
    forall r <- t.mark | !IsWhite(t, r)
      ensures r in t.gray || r in later || Done(t, r)
    {
      RefsSame(s, t, s.objs[r]);
      if IsWhite(s, r) {
        assert Handled(t, r);
      } else if r !in s.gray && r !in later {
        ExtendsDone(s, t, r);
      }
    }
  }

  lemma ExtendsDone(s: State, t: State, r: Ref)
    requires Extends(s, t) && r in s.mark && !IsWhite(s, r) && Done(s, r)
    ensures Done(t, r)
  {
    RefsSame(s, t, s.objs[r]);
    if AllMarked(s, Refs(s, s.objs[r])) {
      ExtendsMarked(s, t, Refs(s, s.objs[r]));
    } else {
      ExtendsMarked(s, t, StrongRefs(s, s.objs[r]));
    }
  }

  ghost function Elements(l: seq<Ref>): set<Ref> {
    set r | r in l
  }

  /** Objects put off until the atomic step. */
  ghost function Later(s: State): set<Ref> {
    Elements(s.grayagain) + Elements(s.weak) + (set r | r in s.objs && s.objs[r].Open?)
  }

  lemma RemarkScanned(s: State)
    requires ListsGray(s) && Scanned(s, Later(s))
    requires forall u <- s.objs :: s.objs[u].Open? ==> u in s.g.uvhead && !IsBlack(s, u)
    ensures var t := RemarkUpvals(s, s.g.uvhead);
            t.mark.Keys == t.objs.Keys && Scanned(t, Elements(s.grayagain) + Elements(s.weak))
  {
    var t := RemarkUpvals(s, s.g.uvhead);
    ExtendsScanned(s, t, Later(s));
    forall u <- s.objs | s.objs[u].Open? && !IsWhite(t, u)
      ensures Done(t, u)
    {
      OpenDone(s, t, u);
    }
  }

  lemma OpenDone(s: State, t: State, u: Ref)
    requires Extends(s, t) && u in s.objs && s.objs[u].Open? && !IsBlack(s, u) && !IsWhite(t, u)
    requires IsGray(s, u) ==> Marked(t, UpvalValue(s, s.objs[u]))
    ensures u in t.objs && Done(t, u)
  {
    RefsSame(s, t, s.objs[u]);
    assert Refs(t, t.objs[u]) == [UpvalValue(s, s.objs[u])];
    if IsWhite(s, u) { assert Handled(t, u); }
  }

  /** Once the weak list has become the gray list, weak tables are pending
      again instead of done. */
  lemma WeakRequeued(s: State, later: set<Ref>)
    requires ListsGray(s) && s.gray == [] && Scanned(s, later + Elements(s.weak))
    ensures var t := s.(gray := s.weak, weak := []); ListsGray(t) && Scanned(t, later)
  {
    var t := s.(gray := s.weak, weak := []);
    forall r <- t.mark | !IsWhite(t, r)
      ensures r in t.gray || r in later || Done(t, r)
    {
      RefsSame(s, t, s.objs[r]);
    }
  }

  lemma AgainRequeued(s: State)
    requires ListsGray(s) && s.gray == [] && Scanned(s, Elements(s.grayagain))
    ensures var t := s.(gray := s.grayagain, grayagain := []); ListsGray(t) && Scanned(t, {})
  {
    var t := s.(gray := s.grayagain, grayagain := []);
    forall r <- t.mark | !IsWhite(t, r)
      ensures r in t.gray || Done(t, r)
    {
      RefsSame(s, t, s.objs[r]);
    }
  }

  /** At the end of marking every marked object is done, and the roots are
      marked. */
  lemma AtomicMarkDone(s: State)
    requires ListsGray(s) && Scanned(s, Later(s))
    requires forall u <- s.objs :: s.objs[u].Open? ==> u in s.g.uvhead && !IsBlack(s, u)
    requires !IsWhite(s, s.g.main) && Marked(s, s.g.registry)
    ensures var t := AtomicMark(s);
            && t.mark.Keys == t.objs.Keys && Scanned(t, {})
            && MarksAfter(s, t)
            && !IsWhite(t, s.g.main) && Marked(t, s.g.registry) && !IsWhite(t, s.g.running)
            && (forall m <- s.g.mts :: m.Some? ==> !IsWhite(t, m.value))
  {
    hide Done, Extends, PropagateAll, ListsGray, After, Scanned, MarksAfter;
    ListsKeys(s);
    var s1 := RemarkUpvals(s, s.g.uvhead);
    RemarkScanned(s);
    ExtendsListsGray(s, s1);
    ExtendsFrame(s, s1);
    var s2 := PropagateAll(s1);
    PropagateAllScanned(s1, Elements(s.grayagain) + Elements(s.weak));
    AfterLists(s1, s2);
    ScannedMore(s2, Elements(s.grayagain) + Elements(s.weak), Elements(s2.grayagain) + Elements(s2.weak));
    WeakRequeued(s2, Elements(s2.grayagain));
    var s3 := s2.(gray := s2.weak, weak := []);
    var s4 := MarkRef(s3, s3.g.running);
    ExtendsListsGray(s3, s4);
    ExtendsFrame(s3, s4);
    ExtendsScanned(s3, s4, Elements(s2.grayagain));
    var s5 := MarkMts(s4, s4.g.mts);
    ExtendsListsGray(s4, s5);
    ExtendsFrame(s4, s5);
    ExtendsScanned(s4, s5, Elements(s2.grayagain));
    var s6 := PropagateAll(s5);
    PropagateAllScanned(s5, Elements(s2.grayagain));
    AfterLists(s5, s6);
    ScannedMore(s6, Elements(s2.grayagain), Elements(s6.grayagain));
    AgainRequeued(s6);
    var s7 := s6.(gray := s6.grayagain, grayagain := []);
    PropagateAllScanned(s7, {});
    assert PropagateAll(s7) == AtomicMark(s);
    var t := PropagateAll(s7);
    ExtendsMarks(s, s1);
    AfterMarks(s1, s2);
    ExtendsMarks(s3, s4);
    ExtendsMarks(s4, s5);
    AfterMarks(s5, s6);
    AfterMarks(s7, t);
    MarksTrans(s, s1, s2);
    MarksTrans(s3, s4, s5);
    MarksTrans(s5, s6, s7);
    MarksTrans(s5, s7, t);
    MarksTrans(s, s2, s3);
    MarksTrans(s, s3, s5);
    MarksTrans(s, s5, t);
    MarksNonWhite(s, t);
    MarksNonWhite(s4, s5);
    MarksNonWhite(s5, t);
  }

  lemma ScannedMore(s: State, a: set<Ref>, b: set<Ref>)
    requires s.mark.Keys == s.objs.Keys && Scanned(s, a) && a <= b
    ensures Scanned(s, b)
  {
    hide Done;
  }

  lemma AfterLists(s: State, t: State)
    requires After(s, t)
    ensures Elements(s.grayagain) <= Elements(t.grayagain) && Elements(s.weak) <= Elements(t.weak)
    ensures t.objs == s.objs && t.g == s.g && t.mark.Keys == s.mark.Keys
    ensures forall r <- s.mark :: !s.mark[r].color.White? ==> !t.mark[r].color.White?
  {}

  /** The marks, not the lists, are what the rest of the atomic step is about. */
  ghost predicate MarksAfter(s: State, t: State) {
    match t case State(_, _, _, _, _, _) =>
    && t.objs == s.objs && t.g == s.g
    && t.mark.Keys == s.mark.Keys
    && (forall r <- s.mark :: t.mark[r].fixed == s.mark[r].fixed)
    && (forall r <- s.mark :: !s.mark[r].color.White? ==> !t.mark[r].color.White?)
    && (forall r <- s.mark :: t.mark[r].color.White? ==> t.mark[r].color == s.mark[r].color)
    && (forall r <- s.mark :: t.mark[r].color == s.mark[r].color || (r in s.objs && ColorOk(s.objs[r], t.mark[r].color)))
  }

  lemma ExtendsMarks(s: State, t: State)
    requires Extends(s, t)
    ensures MarksAfter(s, t)
  {
    hide Refs;
  }

  lemma AfterMarks(s: State, t: State)
    requires After(s, t)
    ensures MarksAfter(s, t)
  {}

  lemma MarksTrans(s: State, t: State, u: State)
    requires MarksAfter(s, t) && (MarksAfter(t, u) || (u.mark == t.mark && u.objs == t.objs && u.g == t.g))
    ensures MarksAfter(s, u)
  {}

  lemma MarksNonWhite(s: State, t: State)
    requires MarksAfter(s, t)
    ensures forall r :: !IsWhite(s, r) ==> !IsWhite(t, r)
    ensures forall v :: Marked(s, v) ==> Marked(t, v)
  {}
}
