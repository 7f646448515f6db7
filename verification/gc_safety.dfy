/** Safety over whole runs: whatever the interleaving of collector steps and
    program operations, nothing reachable is ever freed. */
module GcSafety {
  import opened GcHeap
  import opened GcMark
  import opened GcAtomic
  import opened GcInvariant
  import opened GcBarrier
  import opened GcClose
  import opened GcSweep
  import opened GcSweepInv
  import opened GcStrings
  import opened GcMutator
  import opened GcWrites
  import opened GcCapture
  import opened GcMachine
  import opened GcFixed

  // ---- The program's operations -------------------------------------------

  datatype Op =
    | New(r: Ref, made: Obj)
    | MakeUdata(r: Ref, meta: Option<Ref>, env: Ref)
    | MakeString(r: Ref, bytes: seq<bv8>)
    | FixString(str: Ref)
    | Capture(r: Ref, level: nat)
    | Close(thread: Ref, level: nat)
    | SetStack(thread: Ref, gt: Value, stack: seq<Value>)
    | SetUpval(upval: Ref, val: Value)
    | SetTable(table: Ref, contents: Obj, key: Value, val: Value)
    | SetObject(obj: Ref, contents: Obj, val: Value)
    | SetMetatable(index: nat, mt: Option<Ref>)
    | Resume(thread: Ref)
    | Hold(refs: set<Ref>)

  /** What the program may do: it names only objects it can reach, or already
      has in hand, and keeps the collector's rules (stack slots of open upvalues
      stay on the stack, stores add only the values handed to the barrier). */
  ghost predicate Enabled(s: State, op: Op) {
    match op
    case New(r, o) =>
      && r !in s.objs && Rooted(o) && !o.Udata? && (o.Thread? ==> o.open == [])
      && forall v <- Refs(s, o) :: Usable(s, v)
    case MakeUdata(r, meta, env) =>
      r !in s.objs && Reachable(s, env) && (meta.Some? ==> Reachable(s, meta.value))
    case MakeString(r, _) => r !in s.objs
    case FixString(r) => Reachable(s, r) && r in s.objs && s.objs[r].Str?
    case Capture(r, level) =>
      r !in s.objs && s.g.running in s.objs && s.objs[s.g.running].Thread? && level < |s.objs[s.g.running].stack|
    case Close(th, _) => Reachable(s, th) && th in s.objs && s.objs[th].Thread?
    case SetStack(th, gt, stack) =>
      && Reachable(s, th) && StackFits(s, th, |stack|)
      && forall v <- [gt] + stack :: Usable(s, v)
    case SetUpval(u, v) =>
      Reachable(s, u) && u in s.objs && (s.objs[u].Open? || s.objs[u].Closed?) && Usable(s, v)
    case SetTable(t, o, k, v) =>
      && Reachable(s, t) && t in s.objs && s.objs[t].Table? && Usable(s, k) && Usable(s, v)
      && Replaced(s, s.(objs := s.objs[t := o]), t, [k, v])
    case SetObject(r, o, v) =>
      && Reachable(s, r) && r in s.objs && !s.objs[r].Table? && Usable(s, v)
      && Replaced(s, s.(objs := s.objs[r := o]), r, [v])
    case SetMetatable(i, m) =>
      i < |s.g.mts| && (m.Some? ==> Reachable(s, m.value))
    case Resume(th) => Reachable(s, th) && th in s.objs && s.objs[th].Thread?
    case Hold(refs) => forall r <- refs :: Reachable(s, r)
  }

  function Do(s: State, op: Op): State
    requires Inv(s) && Enabled(s, op)
  {
    hide Inv, Reachable, Replaced;
    match op
    case New(r, o) => NewObject(s, r, o)
    case MakeUdata(r, meta, env) => NewUdata(s, r, meta, env)
    case MakeString(r, bytes) => InvTable(s); InvKeys(s); Intern(s, bytes, r)
    case FixString(r) => InvKeys(s); Fix(s, r)
    case Capture(r, level) => CanCapture(s); FindUpval(s, level, r)
    case Close(th, level) => CanClose(s, th); CloseUpvals(s, th, level)
    case SetStack(th, gt, stack) => WriteStack(s, th, gt, stack)
    case SetUpval(u, v) => CanSetUpval(s, u); WriteUpval(s, u, v)
    case SetTable(t, o, k, v) => WriteTable(s, t, o, k, v)
    case SetObject(r, o, v) => InvKeys(s); WriteObject(s, r, o, v)
    case SetMetatable(i, m) => s.(g := s.g.(mts := s.g.mts[i := m]))
    case Resume(th) => s.(g := s.g.(running := th))
    case Hold(refs) => s.(g := s.g.(tmp := refs))
  }

  lemma CanCapture(s: State)
    requires Inv(s) && s.g.running in s.objs && s.objs[s.g.running].Thread?
    ensures Capturable(s)
  {
    hide LiveHeap, RootListBut, StringTable, PhaseInv;
    Aspects(s, {});
    var l := s.objs[s.g.running].open;
    assert OpenList(s, s.g.running);
    forall u <- l ensures u in s.objs && s.objs[u].Open? {
      var j :| 0 <= j < |l| && l[j] == u;
    }
  }

  lemma CanClose(s: State, th: Ref)
    requires Inv(s) && th in s.objs && s.objs[th].Thread?
    ensures Closable(s, th)
  {
    hide LiveHeap, RootListBut, StringTable, PhaseInv;
    Aspects(s, {});
  }

  lemma CanSetUpval(s: State, u: Ref)
    requires Inv(s) && u in s.objs
    ensures s.mark.Keys == s.objs.Keys
    ensures s.objs[u].Open? ==>
      var th := s.objs[u].thread; th in s.objs && s.objs[th].Thread? && s.objs[u].level < |s.objs[th].stack|
  {
    hide LiveHeap, RootListBut, StringTable, PhaseInv;
    Aspects(s, {});
    if s.objs[u].Open? {
      var l := s.objs[s.objs[u].thread].open;
      assert OpenList(s, s.objs[u].thread);
      var j :| 0 <= j < |l| && l[j] == u;
    }
  }

  // ---- Operations keep the invariant --------------------------------------

  lemma UsableAll(s: State, vs: seq<Value>)
    requires LiveHeap(s) && forall v <- vs :: Usable(s, v)
    ensures AllAlive(s, vs)
  {
    hide LiveHeap;
    forall v <- vs ensures AliveValue(s, v) { UsableAlive(s, v); }
  }

  lemma NewInv(s: State, op: Op)
    requires Inv(s) && Enabled(s, op) && (op.New? || op.MakeUdata? || op.MakeString? || op.Capture?)
    ensures Inv(Do(s, op))
  {
    hide LiveHeap, RootListBut, OpenLists, StringTable, PhaseInv, Refs, Reachable;
    Aspects(s, {});
    match op
    case New(r, o) =>
      NewObjectAdded(s, r, o);
      UsableAll(s, Refs(s, o));
      AddedInv(s, NewObject(s, r, o), r, o);
    case MakeUdata(r, meta, env) =>
      MainListed(s);
      NewUdataAdded(s, r, meta, env);
      UdataRefs(s, meta, env);
      AddedInv(s, NewUdata(s, r, meta, env), r, Udata(meta, env));
    case MakeString(r, bytes) => InternInv(s, bytes, r);
    case Capture(r, level) => FindUpvalInv(s, level, r);
  }

  lemma MainListed(s: State)
    requires Inv(s)
    ensures s.g.main in s.g.swept || s.g.main in s.g.rest
    ensures Disjoint(s.g.swept, s.g.rest)
  {
    hide LiveHeap, OpenLists, StringTable, PhaseInv;
    Aspects(s, {});
  }

  lemma UdataRefs(s: State, meta: Option<Ref>, env: Ref)
    requires LiveHeap(s) && Reachable(s, env) && (meta.Some? ==> Reachable(s, meta.value))
    ensures forall v <- Refs(s, Udata(meta, env)) :: AliveValue(s, v)
  {
    ReachableAlive(s, env);
    if meta.Some? { ReachableAlive(s, meta.value); }
  }

  lemma WriteInv(s: State, op: Op)
    requires Inv(s) && Enabled(s, op) && (op.SetStack? || op.SetUpval? || op.SetTable? || op.SetObject?)
    ensures Inv(Do(s, op))
  {
    hide LiveHeap, RootListBut, OpenLists, StringTable, PhaseInv, Refs, Reachable, Replaced;
    Aspects(s, {});
    match op
    case SetStack(th, gt, stack) =>
      UsableAll(s, [gt] + stack);
      WriteStackInv(s, th, gt, stack);
    case SetUpval(u, v) =>
      ReachableAlive(s, u);
      UsableAlive(s, v);
      WriteUpvalInv(s, u, v);
    case SetTable(t, o, k, v) =>
      ReachableAlive(s, t);
      UsableAlive(s, k);
      UsableAlive(s, v);
      WriteTableInv(s, t, o, k, v);
    case SetObject(r, o, v) =>
      ReachableAlive(s, r);
      UsableAlive(s, v);
      WriteObjectInv(s, r, o, v);
  }

  /** Roots move to reachable objects. */
  lemma RootsInv(s: State, t: State)
    requires Inv(s) && t == s.(g := s.g.(mts := t.g.mts, running := t.g.running, tmp := t.g.tmp))
    requires forall r :: Root(t, r) ==> Alive(s, r)
    ensures Inv(t)
  {
    hide RootListBut, OpenLists, StringTable;
    Aspects(s, {});
    assert SameKinds(s, t);
    StructureSameKinds(s, t);
    RootsLive(s, t);
    RootsPhase(s, t);
  }

  lemma RootsLive(s: State, t: State)
    requires LiveHeap(s) && t == s.(g := s.g.(mts := t.g.mts, running := t.g.running, tmp := t.g.tmp))
    requires forall r :: Root(t, r) ==> Alive(s, r)
    ensures LiveHeap(t)
  {
    forall r ensures Alive(s, r) <==> Alive(t, r) {}
    forall r <- t.objs ensures Refs(t, t.objs[r]) == Refs(s, s.objs[r]) { RefsSame(s, t, s.objs[r]); }
    hide Refs;
    forall m <- t.g.mts | m.Some? ensures Alive(t, m.value) { assert Root(t, m.value); }
    assert Root(t, t.g.main) && Root(t, t.g.running);
    if t.g.registry.Gc? { assert Root(t, t.g.registry.ref); }
    forall r <- t.g.tmp ensures Alive(t, r) { assert Root(t, r); }
    forall r <- t.objs | !IsDead(t, r) ensures AllAlive(t, Refs(t, t.objs[r])) {
      assert AllAlive(s, Refs(s, s.objs[r]));
    }
  }

  lemma RootsPhase(s: State, t: State)
    requires PhaseInv(s) && t == s.(g := s.g.(mts := t.g.mts, running := t.g.running, tmp := t.g.tmp))
    ensures PhaseInv(t)
  {
    assert forall x :: CurWhite(s, x) <==> CurWhite(t, x);
    if s.g.phase == Propagate { RegistersTriColor(s, t); }
    if s.g.phase == SweepString {
      forall b, x | 0 <= b < t.g.sweepstr && x in t.g.strt[b] ensures CurWhite(t, x) {
        assert x in s.g.strt[b] && CurWhite(s, x);
      }
    }
  }

  lemma RootReachable(s: State, r: Ref)
    requires Root(s, r)
    ensures Reachable(s, r)
  {
    assert Path(s, [r]);
    assert [r][|[r]| - 1] == r;
  }

  lemma RootOpInv(s: State, op: Op)
    requires Inv(s) && Enabled(s, op) && (op.SetMetatable? || op.Resume? || op.Hold?)
    ensures Inv(Do(s, op))
  {
    hide LiveHeap, RootListBut, OpenLists, StringTable, PhaseInv, Reachable;
    Aspects(s, {});
    var t := Do(s, op);
    forall r | Root(t, r) ensures Alive(s, r) {
      if Root(s, r) { RootReachable(s, r); }
      assert Reachable(s, r);
      ReachableAlive(s, r);
    }
    RootsInv(s, t);
  }

  lemma OpInv(s: State, op: Op)
    requires Inv(s) && Enabled(s, op)
    ensures Inv(Do(s, op))
  {
    hide Inv, Do;
    match op
    case New(_, _) => NewInv(s, op);
    case MakeUdata(_, _, _) => NewInv(s, op);
    case MakeString(_, _) => NewInv(s, op);
    case FixString(r) => FixOpInv(s, op);
    case Capture(_, _) => NewInv(s, op);
    case Close(th, level) => CloseOpInv(s, op);
    case SetStack(_, _, _) => WriteInv(s, op);
    case SetUpval(_, _) => WriteInv(s, op);
    case SetTable(_, _, _, _) => WriteInv(s, op);
    case SetObject(_, _, _) => WriteInv(s, op);
    case SetMetatable(_, _) => RootOpInv(s, op);
    case Resume(_) => RootOpInv(s, op);
    case Hold(_) => RootOpInv(s, op);
  }

  lemma FixOpInv(s: State, op: Op)
    requires Inv(s) && Enabled(s, op) && op.FixString?
    ensures Inv(Do(s, op))
  {
    hide Inv, Reachable;
    FixInv(s, op.str);
  }

  lemma CloseOpInv(s: State, op: Op)
    requires Inv(s) && Enabled(s, op) && op.Close?
    ensures Inv(Do(s, op))
  {
    hide LiveHeap, RootListBut, StringTable, PhaseInv, Reachable;
    Aspects(s, {});
    CloseUpvalsInv(s, op.thread, op.level, {});
  }

  // ---- Runs ---------------------------------------------------------------

  /** `luaC_fullgc` in pause or propagate throws the marks away: every object is
      swept back to white, and none of them is dead. */
  function Reset(s: State): State {
    if s.g.phase == Pause || s.g.phase == Propagate then
      s.(gray := [], grayagain := [], weak := [],
         g := s.g.(sweepstr := 0, swept := [], rest := s.g.swept + s.g.rest, phase := SweepString))
    else s
  }

  lemma ResetInv(s: State)
    requires Inv(s)
    ensures Inv(Reset(s))
  {
    hide RootListBut, OpenLists, StringTable, LiveHeap;
    Aspects(s, {});
    if s.g.phase == Pause || s.g.phase == Propagate {
      var t := Reset(s);
      ResetStructure(s, t);
      ResetLive(s, t);
      StringTableNonEmpty(s);
    }
  }

  lemma ResetStructure(s: State, t: State)
    requires Structure(s) && t == Reset(s) && t != s
    ensures Structure(t)
  {
    FlipStructure(s, s.(g := t.g));
    OtherLists(s, t);
    hide OpenLists, StringTable;
  }

  lemma ResetLive(s: State, t: State)
    requires LiveHeap(s) && t == Reset(s)
    ensures LiveHeap(t)
  {
    forall r ensures Alive(s, r) <==> Alive(t, r) {}
    forall r <- t.objs ensures Refs(t, t.objs[r]) == Refs(s, s.objs[r]) { RefsSame(s, t, s.objs[r]); }
    hide Refs;
    forall r <- t.objs | !IsDead(t, r) ensures AllAlive(t, Refs(t, t.objs[r])) {
      assert AllAlive(s, Refs(s, s.objs[r]));
    }
  }

  /** One step of a run.  The collector runs only when C code holds nothing
      unanchored; the second and third kinds are those of a full collection. */
  ghost predicate Next(s: State, t: State)
    requires Inv(s)
  {
    || (s.g.tmp == {} && t == SingleStep(s))
    || (s.g.tmp == {} && t == Reset(s))
    || (s.g.tmp == {} && s.g.phase == Finalize && s.mark.Keys == s.objs.Keys && t == MarkRoot(s))
    || exists op :: Enabled(s, op) && t == Do(s, op)
  }

  lemma NextInv(s: State, t: State)
    requires Inv(s) && Next(s, t)
    ensures Inv(t)
  {
    hide Inv, SingleStep, Enabled, Do;
    if s.g.tmp == {} && t == SingleStep(s) {
      SingleStepInv(s);
    } else if s.g.tmp == {} && t == Reset(s) {
      ResetInv(s);
    } else if s.g.tmp == {} && s.g.phase == Finalize && s.mark.Keys == s.objs.Keys && t == MarkRoot(s) {
      MarkRootInv(s);
    } else {
      var op :| Enabled(s, op) && t == Do(s, op);
      OpInv(s, op);
    }
  }

  /** Every state follows from the one before it.  Nothing is asked of a state
      from which the invariant has been lost: that this never happens is proved. */
  ghost predicate Steps(states: seq<State>)
    decreases |states|
  {
    |states| > 1 && Inv(states[0]) ==> Next(states[0], states[1]) && Steps(states[1..])
  }

  /** A run starts anywhere the invariant holds. */
  ghost predicate Run(states: seq<State>) {
    states != [] && Inv(states[0]) && Steps(states)
  }

  lemma {:induction false} RunInv(states: seq<State>, i: nat)
    requires Run(states) && i < |states|
    ensures Inv(states[i])
    decreases i
  {
    if i > 0 {
      hide Inv, Next;
      NextInv(states[0], states[1]);
      assert states[1..][i - 1] == states[i];
      RunInv(states[1..], i - 1);
    }
  }

  /** In every state of every run, everything reachable exists and is not dead:
      nothing reachable has been freed. */
  lemma Safety(states: seq<State>, i: nat, r: Ref)
    requires Run(states) && i < |states| && Reachable(states[i], r)
    ensures r in states[i].objs && !IsDead(states[i], r)
  {
    hide Reachable, Run, RootListBut, OpenLists, StringTable, PhaseInv, Colors, LiveHeap;
    RunInv(states, i);
    Aspects(states[i], {});
    ReachableAlive(states[i], r);
  }

  /** The famous invariant, in every state of every run: while the collector
      marks, no black object refers to a white one, whatever the program has
      stored where in the meantime. */
  lemma NoBlackToWhite(states: seq<State>, i: nat, r: Ref, v: Value)
    requires Run(states) && i < |states|
    requires var s := states[i]; s.g.phase == Propagate && r in s.objs && IsBlack(s, r) && v in Refs(s, s.objs[r])
    ensures Marked(states[i], v)
  {
    hide Run, Inv, Refs;
    RunInv(states, i);
    BlackToWhite(states[i], r, v);
  }

  /** No reference dangles or is dead, in any state of any run, in any object that
      is not dead itself. */
  lemma NothingDangles(states: seq<State>, i: nat, r: Ref, v: Value)
    requires Run(states) && i < |states|
    requires var s := states[i]; Alive(s, r) && v in Refs(s, s.objs[r])
    ensures AliveValue(states[i], v)
  {
    hide Run, Refs, RootListBut, OpenLists, StringTable, PhaseInv, Colors;
    RunInv(states, i);
    Aspects(states[i], {});
  }

  /** A run goes on with any step from its last state. */
  lemma {:induction false} RunExtends(states: seq<State>, t: State)
    requires Run(states) && Inv(states[|states| - 1]) && Next(states[|states| - 1], t)
    ensures Run(states + [t])
    decreases |states|
  {
    hide Inv, Next;
    var more := states + [t];
    assert more[0] == states[0];
    if |states| == 1 {
      assert more[1..] == [t] && more[1] == t;
      assert Steps([t]);
    } else {
      assert more[1..] == states[1..] + [t] && more[1] == states[1];
      NextInv(states[0], states[1]);
      RunExtends(states[1..], t);
    }
  }

  // ---- A new state --------------------------------------------------------

  /** The string is there and will never be collected. */
  ghost predicate IsFixed(s: State, bytes: seq<bv8>) {
    exists r :: r in s.objs && r in s.mark && s.objs[r] == Str(bytes) && s.mark[r].fixed
  }

  ghost predicate FixedStay(s: State, t: State) {
    forall bytes :: IsFixed(s, bytes) ==> IsFixed(t, bytes)
  }

  lemma {:induction false} SomeBound(refs: set<Ref>) returns (n: Ref)
    ensures forall r <- refs :: r < n
    decreases |refs|
  {
    if refs == {} { n := 0; } else {
      var r :| r in refs;
      var m := SomeBound(refs - {r});
      n := if r < m then m else r + 1;
      forall k <- refs ensures k < n { assert k == r || k in refs - {r}; }
    }
  }

  /** Interning gives the string, into the hands of the caller, and leaves the other
      objects as they are. */
  lemma InternGives(s: State, bytes: seq<bv8>, r: Ref) returns (x: Ref)
    requires StringTable(s) && r !in s.objs && s.mark.Keys == s.objs.Keys
    ensures var t := Intern(s, bytes, r);
            && x in t.objs && t.objs[x] == Str(bytes) && x in t.g.tmp
            && forall y <- s.objs :: y in t.objs && t.objs[y] == s.objs[y] && y in t.mark && t.mark[y].fixed == s.mark[y].fixed
  {
    StringTableNonEmpty(s);
    hide StringTable, Lookup, NewString, FreshMark;
    var q := Lookup(s, s.g.strt[StringHash.Bucket(bytes, |s.g.strt|)], bytes);
    x := if q.Some? then q.value else r;
    if q.None? { NewGives(s, bytes, r); }
  }

  lemma NewGives(s: State, bytes: seq<bv8>, r: Ref)
    requires StringTable(s) && |s.g.strt| > 0 && r !in s.objs && s.mark.Keys == s.objs.Keys
    requires Lookup(s, s.g.strt[StringHash.Bucket(bytes, |s.g.strt|)], bytes).None?
    ensures var t := NewString(s, bytes, r);
            && t.objs == s.objs[r := Str(bytes)] && t.mark == s.mark[r := FreshMark(s)] && r in t.g.tmp
  {
    hide StringTable, Lookup, Resize;
    AddStringTable(s, bytes, r);
    var u := AddString(s, bytes, r);
    StringTableNonEmpty(u);
    ResizeTable(u, |u.g.strt| * 2);
  }

  /** One string is interned and fixed. */
  lemma OneFixed(s: State, bytes: seq<bv8>) returns (t: State, w: State)
    requires Inv(s)
    ensures Next(s, t) && Inv(t) && Next(t, w) && Inv(w) && IsFixed(w, bytes) && FixedStay(s, w)
  {
    hide Inv, Next, Reachable, StringTable, Intern;
    var r := SomeBound(s.objs.Keys);
    var op := MakeString(r, bytes);
    InvTable(s);
    InvKeys(s);
    OpInv(s, op);
    OpIsNext(s, op);
    t := Do(s, op);
    InvKeys(t);
    var x := InternGives(s, bytes, r);
    RootReachable(t, x);
    var fix := FixString(x);
    OpInv(t, fix);
    OpIsNext(t, fix);
    w := Do(t, fix);
    StayFixed(s, t, w, x);
  }

  lemma StayFixed(s: State, t: State, w: State, x: Ref)
    requires x in t.mark && w == Fix(t, x)
    requires forall y <- s.objs :: y in t.objs && t.objs[y] == s.objs[y] && y in t.mark && (y in s.mark && s.mark[y].fixed ==> t.mark[y].fixed)
    ensures FixedStay(s, w)
    ensures x in t.objs && t.objs[x].Str? ==> IsFixed(w, t.objs[x].bytes)
  {
    forall bytes | IsFixed(s, bytes) ensures IsFixed(w, bytes) {
      var r :| r in s.objs && r in s.mark && s.objs[r] == Str(bytes) && s.mark[r].fixed;
      assert r in w.objs && r in w.mark && w.objs[r] == Str(bytes) && w.mark[r].fixed;
    }
    if x in t.objs && t.objs[x].Str? {
      assert x in w.objs && x in w.mark && w.objs[x] == Str(t.objs[x].bytes) && w.mark[x].fixed;
    }
  }

  lemma OpIsNext(s: State, op: Op)
    requires Inv(s) && Enabled(s, op)
    ensures Next(s, Do(s, op))
  {
    hide Inv, Enabled, Do;
  }

  lemma RunBefore(s: State, states: seq<State>)
    requires Inv(s) && Run(states) && Next(s, states[0])
    ensures Run([s] + states)
  {
    hide Inv, Next;
    assert ([s] + states)[1..] == states;
  }

  /** The strings that `lua_newstate` goes on to make (the names of metamethods,
      the reserved words, the message for want of memory), each interned and fixed,
      and in the end none of them held.  Any state can be gone on from in this way,
      whatever the phase. */
  lemma {:induction false} FixedStrings(s: State, strs: seq<seq<bv8>>) returns (states: seq<State>)
    requires Inv(s)
    ensures Run(states) && states[0] == s
    ensures var t := states[|states| - 1]; t.g.tmp == {} && FixedStay(s, t) && forall b <- strs :: IsFixed(t, b)
    decreases |strs|
  {
    hide Inv, Next, IsFixed, FixedStay;
    if strs == [] {
      states := NoneHeld(s);
    } else {
      var t, w := OneFixed(s, strs[0]);
      var more := FixedStrings(w, strs[1..]);
      RunBefore(t, more);
      RunBefore(s, [t] + more);
      states := [s] + ([t] + more);
      StayOn(s, w, more[|more| - 1], strs);
    }
  }

  lemma NoneHeld(s: State) returns (states: seq<State>)
    requires Inv(s)
    ensures Run(states) && states[0] == s && states[|states| - 1].g.tmp == {} && FixedStay(s, states[|states| - 1])
  {
    hide Inv, Next;
    var t := Do(s, Hold({}));
    OpIsNext(s, Hold({}));
    OpInv(s, Hold({}));
    states := [s] + [t];
    assert Run([t]) by { assert Steps([t]); }
    RunBefore(s, [t]);
  }

  lemma StayOn(s: State, w: State, t: State, strs: seq<seq<bv8>>)
    requires strs != [] && IsFixed(w, strs[0]) && FixedStay(s, w) && FixedStay(w, t) && forall b <- strs[1..] :: IsFixed(t, b)
    ensures FixedStay(s, t) && forall b <- strs :: IsFixed(t, b)
  {
    hide IsFixed;
    assert strs == [strs[0]] + strs[1..];
  }
}
