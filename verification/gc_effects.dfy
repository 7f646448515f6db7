/** What the operations of a program do to contents and registers, said without the
    functions that do it: stores store, captures find, nothing else changes. */
module GcEffects {
  import opened GcHeap
  import opened GcMark
  import opened GcAtomic
  import opened GcInvariant
  import opened GcBarrier
  import opened GcClose
  import opened GcStrings
  import opened GcMutator
  import opened GcWrites
  import opened GcCapture
  import opened GcMachine
  import opened GcFixed
  import opened GcSafety
  import StringHash

  // ---- What may change ----------------------------------------------------

  /** Colours and gray lists, as barriers change them, and nothing else. */
  ghost predicate Recolored(s: State, t: State) {
    && t == s.(mark := t.mark, gray := t.gray, grayagain := t.grayagain)
    && t.mark.Keys == s.mark.Keys
    && forall r <- s.mark :: t.mark[r] == s.mark[r].(color := t.mark[r].color)
  }

  /** A new object in the current white, in the hands of the program. */
  ghost predicate Made(s: State, t: State, r: Ref, o: Obj) {
    && t == s.(objs := s.objs[r := o], mark := s.mark[r := Mark(White(s.g.cur), false, false, false)],
               g := s.g.(swept := t.g.swept, rest := t.g.rest, tmp := s.g.tmp + {r}))
    && forall x :: x in t.g.swept + t.g.rest <==> x in s.g.swept + s.g.rest || x == r
  }

  ghost predicate IsString(s: State, r: Ref, bytes: seq<bv8>) {
    r in s.objs && s.objs[r] == Str(bytes)
  }

  /** The string there is, or else one made at `r`, is in the hands of the program; a
      string table with more strings than chains is doubled, unless it is being swept. */
  ghost predicate Interned(s: State, t: State, bytes: seq<bv8>, r: Ref) {
    && (forall x :: IsString(s, x, bytes) ==> t.objs == s.objs && x in t.g.tmp && t.g.strt == s.g.strt && t.g.nuse == s.g.nuse)
    && ((forall x :: !IsString(s, x, bytes)) ==>
         && t.objs == s.objs[r := Str(bytes)] && r in t.g.tmp && t.g.nuse == s.g.nuse + 1
         && |t.g.strt| == if s.g.nuse >= |s.g.strt| && |s.g.strt| <= 0x3FFF_FFFE && s.g.phase != SweepString
                          then 2 * |s.g.strt| else |s.g.strt|)
    && t == s.(objs := t.objs, mark := t.mark, g := s.g.(strt := t.g.strt, nuse := t.g.nuse, tmp := t.g.tmp))
  }

  ghost predicate SlotHeld(s: State, t: State, level: nat, u: Ref) {
    && u in t.objs && t.objs[u] == Open(s.g.running, level) && u in t.g.tmp
    && t.objs.Keys == s.objs.Keys + {u}
    && s.g.running in s.objs && s.objs[s.g.running].Thread? && s.g.running in t.objs && t.objs[s.g.running].Thread?
    && forall x :: x in t.objs[s.g.running].open <==> x in s.objs[s.g.running].open || x == u
  }

  /** An open upvalue of the running thread for the slot is there and held; at most
      it, and its place in the list of the thread, is new. */
  ghost predicate HasCaptured(s: State, t: State, level: nat, r: Ref) {
    var th := s.g.running;
    && th in s.objs && s.objs[th].Thread? && th in t.objs && t.objs[th].Thread?
    && t.objs[th] == s.objs[th].(open := t.objs[th].open)
    && (forall x <- s.objs :: x in t.objs && (x != th ==> t.objs[x] == s.objs[x]))
    && exists u :: (u == r || u in s.objs) && SlotHeld(s, t, level, u)
  }

  /** The upvalue's variable, a slot or its own, has the value; all other slots of all
      stacks and all other objects are as before. */
  ghost predicate Assigned(s: State, t: State, u: Ref, v: Value) {
    && u in s.objs && u in t.objs && UpvalValue(t, t.objs[u]) == v
    && t.objs[u] == (if s.objs[u].Open? then s.objs[u] else Closed(v))
    && t.objs.Keys == s.objs.Keys
    && (forall x <- s.objs :: x != u && !(s.objs[u].Open? && x == s.objs[u].thread) ==> t.objs[x] == s.objs[x])
    && (s.objs[u].Open? ==>
         var th := s.objs[u].thread;
         && th in s.objs && s.objs[th].Thread? && t.objs[th].Thread? && t.objs[th] == s.objs[th].(stack := t.objs[th].stack)
         && |t.objs[th].stack| == |s.objs[th].stack|
         && forall i: nat :: i < |s.objs[th].stack| && i != s.objs[u].level ==> t.objs[th].stack[i] == s.objs[th].stack[i])
  }

  /** No register is new but the lists that closed upvalues leave and join. */
  ghost predicate Relinked(s: State, t: State) {
    t == s.(objs := t.objs, mark := t.mark, gray := t.gray, grayagain := t.grayagain,
            g := s.g.(swept := t.g.swept, rest := t.g.rest, uvhead := t.g.uvhead))
  }

  /** `t` is what `s` should be after the operation. */
  ghost predicate Effect(s: State, op: Op, t: State) {
    match op
    case New(r, o) => Made(s, t, r, o)
    case MakeUdata(r, meta, env) => Made(s, t, r, Udata(meta, env))
    case MakeString(r, bytes) => Interned(s, t, bytes, r)
    case FixString(r) =>
      && r in s.mark && r in t.mark && t == s.(mark := t.mark)
      && t.mark == s.mark[r := s.mark[r].(fixed := true)]
    case Capture(r, level) => HasCaptured(s, t, level, r)
    case Close(th, level) => ClosedFrom(s, t, th, level) && Relinked(s, t)
    case SetStack(th, gt, stack) =>
      && th in s.objs && s.objs[th].Thread?
      && t == s.(objs := s.objs[th := Thread(gt, stack, s.objs[th].open)])
    case SetUpval(u, v) => Assigned(s, t, u, v) && Recolored(s.(objs := t.objs), t)
    case SetTable(h, o, _, _) => Recolored(s.(objs := s.objs[h := o]), t)
    case SetObject(r, o, _) => Recolored(s.(objs := s.objs[r := o]), t)
    case SetMetatable(i, m) =>
      && t == s.(g := s.g.(mts := t.g.mts)) && |t.g.mts| == |s.g.mts|
      && forall j: nat :: j < |s.g.mts| ==> t.g.mts[j] == if j == i then m else s.g.mts[j]
    case Resume(th) => t == s.(g := s.g.(running := th))
    case Hold(refs) => t == s.(g := s.g.(tmp := refs))
  }

  // ---- The operations have their effects ----------------------------------

  lemma NewEffect(s: State, op: Op)
    requires Inv(s) && Enabled(s, op) && (op.New? || op.MakeUdata?)
    ensures Effect(s, op, Do(s, op))
  {
    hide LiveHeap, OpenLists, StringTable, PhaseInv, Refs, Reachable;
    match op
    case New(r, o) => NewObjectAdded(s, r, o);
    case MakeUdata(r, meta, env) =>
      MainListed(s);
      NewUdataAdded(s, r, meta, env);
  }

  lemma InternEffect(s: State, bytes: seq<bv8>, r: Ref)
    requires Inv(s) && r !in s.objs && StringTable(s) && s.mark.Keys == s.objs.Keys
    ensures Interned(s, Intern(s, bytes, r), bytes, r)
  {
    hide Inv, Lookup, Resize, StringTable;
    StringTableNonEmpty(s);
    var q := Lookup(s, s.g.strt[StringHash.Bucket(bytes, |s.g.strt|)], bytes);
    if q.Some? {
      OneOnly(s, bytes, q.value);
    } else {
      AddStringTable(s, bytes, r);
      var u := AddString(s, bytes, r);
      StringTableNonEmpty(u);
      ResizeTable(u, |u.g.strt| * 2);
      ResizeSize(u, |u.g.strt| * 2);
      forall x ensures !IsString(s, x, bytes) { NotInChain(s, bytes, x); }
    }
  }

  lemma ResizeSize(s: State, n: nat)
    requires StringTable(s) && n > 0
    ensures |Resize(s, n).g.strt| == if s.g.phase == SweepString then |s.g.strt| else n
  {
    hide RehashFrom;
  }

  lemma OneOnly(s: State, bytes: seq<bv8>, q: Ref)
    requires StringTable(s) && IsString(s, q, bytes)
    ensures forall x :: IsString(s, x, bytes) ==> x == q
  {}

  lemma NotInChain(s: State, bytes: seq<bv8>, x: Ref)
    requires StringTable(s) && |s.g.strt| > 0
    requires Lookup(s, s.g.strt[StringHash.Bucket(bytes, |s.g.strt|)], bytes).None?
    ensures !IsString(s, x, bytes)
  {}

  lemma CaptureEffect(s: State, level: nat, r: Ref)
    requires Inv(s) && r !in s.objs && Capturable(s) && level < |s.objs[s.g.running].stack|
    ensures HasCaptured(s, FindUpval(s, level, r), level, r)
  {
    hide RootListBut, StringTable, PhaseInv, LiveHeap, Colors, OpenLists, UpvalValue;
    Aspects(s, {});
    Lists(s);
    FoundThere(s, level, r);
    var l := s.objs[s.g.running].open;
    var i := Above(s, l, level);
    if !(i < |l| && s.objs[l[i]].level == level) { InsertedOrder(s, level, r); }
    hide OpenList, Above;
    var t := FindUpval(s, level, r);
    var u := Captured(s, level, r);
    assert u in t.g.tmp;
  }

  lemma UpvalEffect(s: State, u: Ref, v: Value)
    requires Inv(s) && Enabled(s, SetUpval(u, v))
    ensures Effect(s, SetUpval(u, v), Do(s, SetUpval(u, v)))
  {
    hide Inv, Reachable, ReallyMark;
    CanSetUpval(s, u);
    var t := Do(s, SetUpval(u, v));
    var o := s.objs[u];
    if o.Open? {
      ForwardColors(WriteStack(s, o.thread, s.objs[o.thread].gt, s.objs[o.thread].stack[o.level := v]), u, v);
    } else {
      ForwardColors(s.(objs := s.objs[u := Closed(v)]), u, v);
    }
  }

  lemma ForwardColors(s: State, r: Ref, v: Value)
    requires s.mark.Keys == s.objs.Keys
    ensures Recolored(s, BarrierForward(s, r, v))
  {
    hide Grown, Handled;
  }

  lemma StoreEffect(s: State, op: Op)
    requires Inv(s) && Enabled(s, op) && (op.SetTable? || op.SetObject?)
    ensures Effect(s, op, Do(s, op))
  {
    hide Inv, Reachable, Replaced, ReallyMark;
    InvKeys(s);
    if op.SetObject? {
      ForwardColors(s.(objs := s.objs[op.obj := op.contents]), op.obj, op.val);
    }
  }

  lemma CloseEffect(s: State, op: Op)
    requires Inv(s) && Enabled(s, op) && op.Close?
    ensures Effect(s, op, Do(s, op))
  {
    hide Inv, Reachable, ClosedFrom, Relinked;
    CloseUpvalsEffect(s, op.thread, op.level);
    CloseRelinks(s, op.thread, op.level);
  }

  lemma OneRelinks(s: State, th: Ref)
    requires Closable(s, th) && s.objs[th].open != []
    ensures Relinked(s, CloseOne(s, th))
  {
    var u := s.objs[th].open[0];
    assert OpenList(s, th);
    var s1 := s.(objs := s.objs[th := s.objs[th].(open := s.objs[th].open[1..])]);
    if !IsDead(s, u) {
      var s2 := LinkRoot(s1.(objs := s1.objs[u := Closed(UpvalValue(s, s.objs[u]))], g := s1.g.(uvhead := Without(s1.g.uvhead, u))), u);
      if IsGray(s2, u) && s2.g.phase == Propagate { ForwardColors(SetColor(s2, u, Black), u, UpvalValue(s2, s2.objs[u])); }
    }
    hide BarrierForward, Without;
  }

  lemma {:induction false} CloseRelinks(s: State, th: Ref, level: nat)
    requires Closable(s, th)
    ensures Relinked(s, CloseUpvals(s, th, level))
    decreases |s.objs[th].open|
  {
    hide Closable, CloseOne;
    OpenThere(s, th);
    if s.objs[th].open != [] && s.objs[s.objs[th].open[0]].level >= level {
      CloseOneObjs(s, th);
      CloseOneClosable(s, CloseOne(s, th), th);
      OneRelinks(s, th);
      CloseRelinks(CloseOne(s, th), th, level);
    }
  }

  lemma OpenThere(s: State, th: Ref)
    requires Closable(s, th)
    ensures th in s.objs && s.objs[th].Thread?
    ensures s.objs[th].open != [] ==> s.objs[th].open[0] in s.objs && s.objs[s.objs[th].open[0]].Open?
  {
    assert OpenList(s, th);
  }

  lemma RegisterEffect(s: State, op: Op)
    requires Inv(s) && Enabled(s, op) && (op.SetStack? || op.SetMetatable? || op.Resume? || op.Hold? || op.FixString?)
    ensures Effect(s, op, Do(s, op))
  {
    hide Inv, Reachable, Refs;
    InvKeys(s);
  }

  lemma InternOp(s: State, op: Op)
    requires Inv(s) && Enabled(s, op) && op.MakeString?
    ensures Effect(s, op, Do(s, op))
  {
    hide Inv, Reachable, Interned, Intern;
    InvTable(s);
    InvKeys(s);
    InternEffect(s, op.bytes, op.r);
  }

  lemma CaptureOp(s: State, op: Op)
    requires Inv(s) && Enabled(s, op) && op.Capture?
    ensures Effect(s, op, Do(s, op))
  {
    hide Inv, Reachable, HasCaptured, FindUpval;
    CanCapture(s);
    CaptureEffect(s, op.level, op.r);
  }

  /** Every operation of the program does what it is for and nothing else, in every
      state in which the invariant holds, whatever the phase: an assignment is not
      lost, and barriers change only colours and gray lists. */
  lemma DoEffect(s: State, op: Op)
    requires Inv(s) && Enabled(s, op)
    ensures Effect(s, op, Do(s, op))
  {
    hide Inv, Effect;
    match op
    case New(_, _) => NewEffect(s, op);
    case MakeUdata(_, _, _) => NewEffect(s, op);
    case MakeString(_, _) => InternOp(s, op);
    case FixString(_) => RegisterEffect(s, op);
    case Capture(_, _) => CaptureOp(s, op);
    case Close(_, _) => CloseEffect(s, op);
    case SetStack(_, _, _) => RegisterEffect(s, op);
    case SetUpval(u, v) => UpvalEffect(s, u, v);
    case SetTable(_, _, _, _) => StoreEffect(s, op);
    case SetObject(_, _, _) => StoreEffect(s, op);
    case SetMetatable(_, _) => RegisterEffect(s, op);
    case Resume(_) => RegisterEffect(s, op);
    case Hold(_) => RegisterEffect(s, op);
  }

  // ---- Reading what was written -------------------------------------------

  /** Assigning to a variable through one upvalue: whoever reads it through the same
      upvalue gets the value, through any other upvalue, open or closed, what was
      there before. */
  lemma AssignedAlone(s: State, u: Ref, v: Value, x: Ref)
    requires Inv(s) && Enabled(s, SetUpval(u, v))
    requires x in s.objs && (s.objs[x].Open? || s.objs[x].Closed?)
    ensures var t := Do(s, SetUpval(u, v));
            x in t.objs && UpvalValue(t, t.objs[x]) == if x == u then v else UpvalValue(s, s.objs[x])
  {
    hide Inv, Reachable, Do;
    UpvalEffect(s, u, v);
    if x != u && s.objs[x].Open? && s.objs[u].Open? && s.objs[x].thread == s.objs[u].thread { SlotsDiffer(s, u, x); }
  }

  lemma SlotsDiffer(s: State, u: Ref, x: Ref)
    requires Inv(s) && u in s.objs && x in s.objs && s.objs[u].Open? && s.objs[x].Open? && x != u
    requires s.objs[x].thread == s.objs[u].thread
    ensures s.objs[x].level != s.objs[u].level
  {
    hide RootListBut, StringTable, PhaseInv, LiveHeap, Colors;
    Aspects(s, {});
    var l := s.objs[s.objs[u].thread].open;
    assert OpenList(s, s.objs[u].thread);
    var i :| 0 <= i < |l| && l[i] == u;
    var j :| 0 <= j < |l| && l[j] == x;
  }
}
