/** Stores: into tables (backward barrier), into other objects (forward
    barrier), into stacks (none). */
module GcWrites {
  import opened GcHeap
  import opened GcMark
  import opened GcPropagate
  import opened GcAtomic
  import opened GcInvariant
  import opened GcBarrier
  import opened GcClose
  import opened GcMutator

  // ---- The stores ---------------------------------------------------------

  /** Any change to table `t` that adds at most the references of `k` and `v`:
      setting, clearing, rehashing, a new metatable. */
  function WriteTable(s: State, t: Ref, o: Obj, k: Value, v: Value): State {
    BarrierBack(BarrierBack(s.(objs := s.objs[t := o]), t, k), t, v)
  }

  /** Any change to a closure, prototype, userdata or closed upvalue that adds
      at most the reference of `v`. */
  function WriteObject(s: State, r: Ref, o: Obj, v: Value): State
    requires s.mark.Keys == s.objs.Keys && r in s.objs
  {
    BarrierForward(s.(objs := s.objs[r := o]), r, v)
  }

  /** A new stack for a thread; threads are never black, so no barrier. */
  function WriteStack(s: State, th: Ref, gt: Value, stack: seq<Value>): State
    requires th in s.objs && s.objs[th].Thread?
  {
    s.(objs := s.objs[th := s.objs[th].(gt := gt, stack := stack)])
  }

  /** `OP_SETUPVAL`: the value goes to the stack or into the upvalue. */
  function WriteUpval(s: State, u: Ref, v: Value): State
    requires s.mark.Keys == s.objs.Keys && u in s.objs && (s.objs[u].Open? || s.objs[u].Closed?)
    requires s.objs[u].Open? ==>
      var th := s.objs[u].thread; th in s.objs && s.objs[th].Thread? && s.objs[u].level < |s.objs[th].stack|
  {
    var o := s.objs[u];
    if o.Open? then
      var th := o.thread;
      BarrierForward(WriteStack(s, th, s.objs[th].gt, s.objs[th].stack[o.level := v]), u, v)
    else WriteObject(s, u, Closed(v), v)
  }

  // ---- Contents replaced --------------------------------------------------

  /** Object `r` has been replaced by one of the same kind that refers to
      nothing new but the values in `vs`. */
  ghost predicate Replaced(s: State, t: State, r: Ref, vs: seq<Value>) {
    match t case State(_, _, _, _, _, _) =>
    && r in s.objs && Simple(s.objs[r]) && s.mark.Keys == s.objs.Keys
    && r in t.objs && Simple(t.objs[r])
    && (forall c :: ColorOk(s.objs[r], c) <==> ColorOk(t.objs[r], c))
    && (s.objs[r].Table? <==> t.objs[r].Table?)
    && (Container(s.objs[r]) <==> Container(t.objs[r]))
    && t == s.(objs := s.objs[r := t.objs[r]])
    && (forall v <- Refs(s, t.objs[r]) :: v in Refs(s, s.objs[r]) || v in vs)
  }

  lemma ReplacedKinds(s: State, t: State, r: Ref, vs: seq<Value>)
    requires Replaced(s, t, r, vs)
    ensures SameKinds(s, t) && t.g == s.g && t.mark == s.mark
    ensures Refs(t, t.objs[r]) == Refs(s, t.objs[r])
  {
    hide Refs;
    RefsSameKinds(s, t, t.objs[r]);
  }

  /** Recolouring one object, to anything but dead, harms no reference. */
  ghost predicate Repainted(s: State, t: State, r: Ref) {
    match t case State(_, _, _, _, _, _) =>
    && r in s.mark && r in t.mark && r in s.objs && t == s.(mark := t.mark, gray := t.gray, grayagain := t.grayagain)
    && t.mark == s.mark[r := s.mark[r].(color := t.mark[r].color)]
    && ColorOk(s.objs[r], t.mark[r].color)
    && (t.mark[r].color == s.mark[r].color || t.mark[r].color == White(s.g.cur) || (t.mark[r].color.Gray? && s.mark[r].color.Black?))
  }

  lemma ReplacedLive(s: State, t: State, r: Ref, vs: seq<Value>)
    requires Replaced(s, t, r, vs) && LiveHeap(s) && AllAlive(s, vs)
    ensures LiveHeap(t)
  {
    ReplacedKinds(s, t, r, vs);
    forall x ensures Alive(s, x) <==> Alive(t, x) {}
    forall x <- t.objs | !IsDead(t, x)
      ensures AllAlive(t, Refs(t, t.objs[x])) ||
              (x in s.objs && !IsDead(s, x) && forall v <- Refs(t, t.objs[x]) :: v in Refs(s, s.objs[x]) || AliveValue(t, v))
    {
      RefsSameKinds(s, t, t.objs[x]);
    }
    hide Refs;
    LiveTransfer(s, t);
  }

  lemma ReplacedColors(s: State, t: State, r: Ref, vs: seq<Value>)
    requires Replaced(s, t, r, vs) && Colors(s)
    ensures Colors(t)
  {
    hide Refs;
  }

  lemma RepaintedLive(s: State, t: State, r: Ref)
    requires Repainted(s, t, r) && LiveHeap(s) && Alive(s, r)
    ensures LiveHeap(t)
  {
    forall x ensures Alive(s, x) <==> Alive(t, x) {}
    forall x <- t.objs | !IsDead(t, x) ensures AllAlive(t, Refs(t, t.objs[x])) {
      RefsSame(s, t, s.objs[x]);
      hide Refs;
      assert AllAlive(s, Refs(s, s.objs[x]));
    }
  }

  lemma RepaintedRest(s: State, t: State, r: Ref)
    requires Repainted(s, t, r) && Structure(s) && Colors(s)
    ensures Structure(t) && Colors(t)
  {
    hide Structure, Colors, Repainted;
    RepaintedKinds(s, t, r);
    RepaintedColors(s, t, r);
    StructureSameKinds(s, t);
  }

  lemma RepaintedKinds(s: State, t: State, r: Ref)
    requires Repainted(s, t, r)
    ensures SameKinds(s, t) && t.g == s.g && t.objs == s.objs
  {}

  lemma RepaintedColors(s: State, t: State, r: Ref)
    requires Repainted(s, t, r) && Colors(s)
    ensures Colors(t)
  {}

  lemma ReplacedStructure(s: State, t: State, r: Ref, vs: seq<Value>)
    requires Replaced(s, t, r, vs) && Structure(s)
    ensures Structure(t)
  {
    hide Structure, Replaced;
    ReplacedKinds(s, t, r, vs);
    StructureSameKinds(s, t);
  }

  /** Outside the marking phase only current white matters. */
  lemma WhitesPhase(s: State, t: State)
    requires PhaseInv(s) && s.g.phase != Propagate && SameKinds(s, t) && t.g == s.g
    requires t.mark.Keys == s.mark.Keys
    requires forall r :: CurWhite(s, r) ==> CurWhite(t, r)
    ensures PhaseInv(t)
  {}

  // ---- While marking ------------------------------------------------------

  /** After a replacement everything but the object itself stays scanned. */
  lemma ReplacedScanned(s: State, t: State, r: Ref, vs: seq<Value>)
    requires Replaced(s, t, r, vs) && TriColor(s)
    ensures ListsGray(t) && GrayListed(t) && t.mark.Keys == t.objs.Keys && Scanned(t, Later(t) + {r})
    ensures !IsWhite(t, t.g.main) && Marked(t, t.g.registry)
  {
    hide Refs, Done;
    ReplacedKinds(s, t, r, vs);
    ReplacedLists(s, t, r, vs);
    assert Later(s) <= Later(t);
    forall x <- t.mark | !IsWhite(t, x) && x != r
      ensures x in t.gray || x in Later(t) || Done(t, x)
    {
      if x !in s.gray && x !in Later(s) { ReplacedDone(s, t, r, vs, x); }
    }
  }

  lemma ReplacedLists(s: State, t: State, r: Ref, vs: seq<Value>)
    requires Replaced(s, t, r, vs) && ListsGray(s) && GrayListed(s)
    ensures ListsGray(t) && GrayListed(t)
  {
    hide Refs, Distinct, Disjoint;
  }

  lemma ReplacedDone(s: State, t: State, r: Ref, vs: seq<Value>, x: Ref)
    requires Replaced(s, t, r, vs) && x in s.mark && x in s.objs && x != r && x !in s.weak && Done(s, x)
    ensures Done(t, x)
  {
    hide Refs;
    ReplacedKinds(s, t, r, vs);
    RefsSameKinds(s, t, s.objs[x]);
  }

  lemma ScannedOne(t: State, r: Ref)
    requires t.mark.Keys == t.objs.Keys && Scanned(t, Later(t) + {r}) && r in t.objs
    requires IsWhite(t, r) || r in t.gray || r in t.grayagain || r in t.weak || Done(t, r)
    ensures Scanned(t, Later(t))
  {
    hide Done;
  }

  /** A table store: afterwards the table is white, waiting, or still has only
      marked references. */
  lemma WriteTableTriColor(s: State, t: Ref, o: Obj, k: Value, v: Value)
    requires TriColor(s) && NoDead(s) && Replaced(s, s.(objs := s.objs[t := o]), t, [k, v])
    requires s.objs[t].Table?
    ensures TriColor(WriteTable(s, t, o, k, v)) && NoDead(WriteTable(s, t, o, k, v))
  {
    hide Refs, Done, ListsGray, Scanned;
    var s1 := s.(objs := s.objs[t := o]);
    ReplacedScanned(s, s1, t, [k, v]);
    ReplacedKinds(s, s1, t, [k, v]);
    var u := WriteTable(s, t, o, k, v);
    if u.mark == s1.mark {
      WriteTableQuiet(s, s1, t, k, v);
      assert u == s1;
    } else {
      assert IsBlack(s1, t);
      assert u == SetColor(s1, t, Gray).(grayagain := [t] + s1.grayagain);
      RequeueTable(s1, u, t);
    }
  }

  lemma WriteTableQuiet(s: State, s1: State, t: Ref, k: Value, v: Value)
    requires Replaced(s, s1, t, [k, v]) && TriColor(s)
    requires BarrierBack(BarrierBack(s1, t, k), t, v).mark == s1.mark
    requires ListsGray(s1) && GrayListed(s1) && s1.mark.Keys == s1.objs.Keys && Scanned(s1, Later(s1) + {t})
    requires !IsWhite(s1, s1.g.main) && Marked(s1, s1.g.registry) && s.objs[t].Table?
    ensures BarrierBack(BarrierBack(s1, t, k), t, v) == s1 && TriColor(s1)
  {
    hide Refs;
    ReplacedKinds(s, s1, t, [k, v]);
    if IsBlack(s1, t) {
      assert Marked(s1, k) && Marked(s1, v) by {
        assert s1.mark[t := s1.mark[t].(color := Gray)][t].color == Gray;
      }
      assert t !in s.gray && t !in Later(s);
      assert AllMarked(s, Refs(s, s.objs[t]));
      assert forall x <- Refs(s1, s1.objs[t]) :: Marked(s1, x);
      assert Done(s1, t);
    } else if IsGray(s1, t) {
      assert t in s1.gray || t in s1.grayagain || t in s1.weak;
    }
    hide Done;
    ScannedOne(s1, t);
  }

  lemma RequeueTable(s: State, u: State, t: Ref)
    requires ListsGray(s) && GrayListed(s) && s.mark.Keys == s.objs.Keys && Scanned(s, Later(s) + {t})
    requires !IsWhite(s, s.g.main) && Marked(s, s.g.registry)
    requires t in s.objs && s.objs[t].Table? && IsBlack(s, t)
    requires u == SetColor(s, t, Gray).(grayagain := [t] + s.grayagain)
    ensures TriColor(u)
  {
    hide Refs, Done;
    RequeueLists(s, u, t);
    forall x <- u.mark | !IsWhite(u, x)
      ensures x in u.gray || x in Later(u) || Done(u, x)
    {
      if x == t {
        assert x in u.grayagain;
      } else if x !in s.gray && x !in Later(s) {
        RequeueDone(s, u, t, x);
      }
    }
  }

  lemma RequeueLists(s: State, u: State, t: Ref)
    requires ListsGray(s) && GrayListed(s) && t in s.objs && s.objs[t].Table? && IsBlack(s, t)
    requires u == SetColor(s, t, Gray).(grayagain := [t] + s.grayagain)
    ensures ListsGray(u) && GrayListed(u) && Later(s) <= Later(u)
  {
    assert t !in s.gray && t !in s.grayagain && t !in s.weak;
    assert forall x :: x in u.grayagain <==> x == t || x in s.grayagain;
    assert Distinct(u.grayagain);
  }

  lemma RequeueDone(s: State, u: State, t: Ref, x: Ref)
    requires x in s.objs && x != t && x !in s.weak && Done(s, x)
    requires t in s.mark && !IsWhite(s, t)
    requires u == SetColor(s, t, Gray).(grayagain := [t] + s.grayagain)
    ensures Done(u, x)
  {
    RefsSame(s, u, s.objs[x]);
  }

  /** A barriered store into anything but a table. */
  lemma WriteObjectTriColor(s: State, r: Ref, o: Obj, v: Value)
    requires TriColor(s) && NoDead(s) && Colors(s) && s.g.phase == Propagate
    requires Replaced(s, s.(objs := s.objs[r := o]), r, [v]) && !s.objs[r].Table?
    ensures TriColor(WriteObject(s, r, o, v)) && NoDead(WriteObject(s, r, o, v))
    ensures WriteObject(s, r, o, v).mark.Keys == s.mark.Keys
  {
    hide Refs, Done, ListsGray, Scanned, GrayListed;
    var s1 := s.(objs := s.objs[r := o]);
    ReplacedScanned(s, s1, r, [v]);
    ReplacedKinds(s, s1, r, [v]);
    var t := WriteObject(s, r, o, v);
    if v.Gc? && IsWhite(s1, v.ref) && IsBlack(s1, r) {
      assert t == ReallyMark(s1, v.ref);
    } else {
      ExtendsSelf(s1);
    }
    ExtendsScanned(s1, t, Later(s1) + {r});
    ExtendsListsGray(s1, t);
    ExtendsGrayListed(s1, t);
    ExtendsFrame(s1, t);
    LaterGrows(s1, t);
    ScannedMore(t, Later(s1) + {r}, Later(t) + {r});
    ExtendsMarks(s1, t);
    MarksNonWhite(s1, t);
    WriteObjectDone(s, s1, t, r, v);
    ScannedOne(t, r);
    assert NoDead(t) by { hide Extends; }
  }

  lemma WriteObjectDone(s: State, s1: State, t: State, r: Ref, v: Value)
    requires TriColor(s) && Colors(s) && Replaced(s, s1, r, [v]) && !s.objs[r].Table? && Extends(s1, t)
    requires IsBlack(s, r) ==> Marked(t, v)
    ensures r in t.objs && (IsWhite(t, r) || r in t.gray || r in t.grayagain || r in t.weak || Done(t, r))
  {
    hide Refs;
    ReplacedKinds(s, s1, r, [v]);
    ExtendsFrame(s1, t);
    if IsBlack(s, r) {
      assert r !in s.gray && r !in Later(s);
      assert AllMarked(s, Refs(s, s.objs[r]));
      ExtendsMarked(s1, t, Refs(s, s.objs[r]));
      RefsSame(s1, t, s1.objs[r]);
      assert AllMarked(t, Refs(t, t.objs[r]));
    } else if IsGray(s, r) {
      assert Container(s.objs[r]);
      assert r in s.gray || r in s.grayagain || r in s.weak;
      assert Grown(s1, t, s1.gray, t.gray);
    } else if !IsWhite(t, r) {
      assert t.mark[r] != s1.mark[r];
      assert Handled(t, r);
    }
  }

  // ---- Stores keep the invariant ------------------------------------------

  lemma ReplacedInv(s: State, t: State, r: Ref, vs: seq<Value>)
    requires Inv(s) && Replaced(s, t, r, vs) && AllAlive(s, vs)
    ensures Structure(t) && Colors(t) && LiveHeap(t)
    ensures s.g.phase != Propagate ==> PhaseInv(t) && Inv(t)
  {
    hide Replaced, RootListBut, OpenLists, StringTable, Colors, LiveHeap;
    Aspects(s, {});
    ReplacedStructure(s, t, r, vs);
    ReplacedColors(s, t, r, vs);
    ReplacedLive(s, t, r, vs);
    ReplacedKinds(s, t, r, vs);
    if s.g.phase != Propagate { WhitesPhase(s, t); }
  }

  lemma RepaintedInv(s: State, t: State, r: Ref)
    requires Structure(s) && Colors(s) && LiveHeap(s) && Repainted(s, t, r) && Alive(s, r)
    ensures Structure(t) && Colors(t) && LiveHeap(t)
    ensures s.g.phase != Propagate && PhaseInv(s) ==> Inv(t)
  {
    hide RootListBut, OpenLists, StringTable, Colors, LiveHeap;
    RepaintedRest(s, t, r);
    RepaintedLive(s, t, r);
    if s.g.phase != Propagate && PhaseInv(s) {
      RepaintedWhites(s, t, r);
      WhitesPhase(s, t);
    }
  }

  lemma RepaintedWhites(s: State, t: State, r: Ref)
    requires Repainted(s, t, r)
    ensures forall x :: CurWhite(s, x) ==> CurWhite(t, x)
    ensures SameKinds(s, t) && t.g == s.g && t.mark.Keys == s.mark.Keys
  {}

  lemma WriteTableInv(s: State, t: Ref, o: Obj, k: Value, v: Value)
    requires Inv(s) && Alive(s, t) && s.objs[t].Table? && AliveValue(s, k) && AliveValue(s, v)
    requires Replaced(s, s.(objs := s.objs[t := o]), t, [k, v])
    ensures Inv(WriteTable(s, t, o, k, v))
  {
    hide Replaced, RootListBut, OpenLists, StringTable, Colors, LiveHeap;
    Aspects(s, {});
    var s1 := s.(objs := s.objs[t := o]);
    var u := WriteTable(s, t, o, k, v);
    ReplacedInv(s, s1, t, [k, v]);
    if u != s1 {
      WriteTableRepaint(s, s1, t, k, v);
      RepaintedInv(s1, u, t);
    }
    if s.g.phase == Propagate { WriteTableTriColor(s, t, o, k, v); }
  }

  lemma WriteTableRepaint(s: State, s1: State, t: Ref, k: Value, v: Value)
    requires Replaced(s, s1, t, [k, v]) && Colors(s) && s.objs[t].Table?
    ensures var u := BarrierBack(BarrierBack(s1, t, k), t, v); u != s1 ==> Repainted(s1, u, t)
  {
    hide Refs;
  }

  lemma WriteObjectInv(s: State, r: Ref, o: Obj, v: Value)
    requires Inv(s) && Alive(s, r) && AliveValue(s, v) && !s.objs[r].Table?
    requires Replaced(s, s.(objs := s.objs[r := o]), r, [v])
    ensures s.mark.Keys == s.objs.Keys && Inv(WriteObject(s, r, o, v))
  {
    hide Replaced, RootListBut, OpenLists, StringTable, Colors, LiveHeap;
    Aspects(s, {});
    ColorsKeys(s);
    var s1 := s.(objs := s.objs[r := o]);
    var t := WriteObject(s, r, o, v);
    ReplacedInv(s, s1, r, [v]);
    ColorsKeys(s1);
    if s.g.phase == Propagate {
      WriteObjectTriColor(s, r, o, v);
      if t != s1 {
        ExtendsMarks(s1, t);
        ExtendsFrame(s1, t);
        assert NoDead(s1);
        MarkStepInv(s1, t);
      }
    } else if t != s1 {
      assert t == Whiten(s1, r);
      assert Repainted(s1, t, r) by { WhiteSuits(s1, r); }
      RepaintedInv(s1, t, r);
    }
  }

  lemma WhiteSuits(s: State, r: Ref)
    requires Colors(s) && r in s.objs
    ensures forall w :: ColorOk(s.objs[r], White(w))
  {}

  // ---- Stacks -------------------------------------------------------------

  /** The slots of open upvalues stay on the stack. */
  ghost predicate StackFits(s: State, th: Ref, n: nat) {
    && th in s.objs && s.objs[th].Thread?
    && forall u <- s.objs[th].open :: u in s.objs && s.objs[u].Open? ==> s.objs[u].level < n
  }

  lemma StackLists(s: State, th: Ref, gt: Value, stack: seq<Value>)
    requires Structure(s) && Colors(s) && StackFits(s, th, |stack|)
    ensures Structure(WriteStack(s, th, gt, stack)) && Colors(WriteStack(s, th, gt, stack))
  {
    hide StringTable, OpenLists;
    var t := WriteStack(s, th, gt, stack);
    StackOpenLists(s, th, gt, stack);
    assert SameStrings(s, t);
    StringTableSame(s, t);
    assert RootListBut(t, {});
  }

  lemma StackOpenLists(s: State, th: Ref, gt: Value, stack: seq<Value>)
    requires OpenLists(s) && StackFits(s, th, |stack|)
    ensures OpenLists(WriteStack(s, th, gt, stack))
  {
    var t := WriteStack(s, th, gt, stack);
    forall x <- t.objs | t.objs[x].Thread? ensures OpenList(t, x) {
      assert OpenList(s, x);
      forall u <- s.objs[x].open ensures t.objs[u] == s.objs[u] && s.objs[u].Open? {
        var i :| 0 <= i < |s.objs[x].open| && s.objs[x].open[i] == u;
      }
      if x != th { OpenListSame(s, t, x); }
    }
  }

  lemma StackRefs(s: State, th: Ref, gt: Value, stack: seq<Value>, x: Ref)
    requires OpenLists(s) && StackFits(s, th, |stack|) && x in s.objs
    ensures var t := WriteStack(s, th, gt, stack);
            && x in t.objs
            && if x == th then Refs(t, t.objs[x]) == [gt] + stack
               else if s.objs[x].Open? && s.objs[x].thread == th then
                 s.objs[x].level < |stack| && Refs(t, t.objs[x]) == [stack[s.objs[x].level]]
               else Refs(t, t.objs[x]) == Refs(s, s.objs[x])
  {
    hide Contents;
  }

  lemma StackLive(s: State, th: Ref, gt: Value, stack: seq<Value>)
    requires LiveHeap(s) && OpenLists(s) && StackFits(s, th, |stack|)
    requires AllAlive(s, [gt] + stack)
    ensures LiveHeap(WriteStack(s, th, gt, stack))
  {
    var t := WriteStack(s, th, gt, stack);
    forall x ensures Alive(s, x) <==> Alive(t, x) {}
    forall x <- t.objs | !IsDead(t, x)
      ensures AllAlive(t, Refs(t, t.objs[x])) ||
              (x in s.objs && !IsDead(s, x) && forall v <- Refs(t, t.objs[x]) :: v in Refs(s, s.objs[x]) || AliveValue(t, v))
    {
      StackRefs(s, th, gt, stack, x);
      hide Refs, OpenLists;
      forall v <- [gt] + stack ensures AliveValue(t, v) { assert AliveValue(s, v); }
    }
    hide Refs;
    LiveTransfer(s, t);
  }

  lemma StackPhase(s: State, th: Ref, gt: Value, stack: seq<Value>)
    requires Inv(s) && StackFits(s, th, |stack|)
    ensures PhaseInv(WriteStack(s, th, gt, stack))
  {
    hide RootListBut, StringTable, LiveHeap;
    Aspects(s, {});
    var t := WriteStack(s, th, gt, stack);
    assert forall x <- t.objs :: x == th || t.objs[x] == s.objs[x];
    hide OpenLists;
    match s.g.phase
    case Propagate => StackTriColor(s, th, gt, stack);
    case _ => assert forall x :: CurWhite(s, x) <==> CurWhite(t, x);
  }

  lemma StackTriColor(s: State, th: Ref, gt: Value, stack: seq<Value>)
    requires TriColor(s) && Colors(s) && OpenLists(s) && StackFits(s, th, |stack|)
    ensures TriColor(WriteStack(s, th, gt, stack))
  {
    hide Refs, Done, OpenLists, Distinct, Disjoint;
    var t := WriteStack(s, th, gt, stack);
    assert ListsGray(t) && GrayListed(t);
    assert Later(t) == Later(s);
    forall x <- t.mark | !IsWhite(t, x)
      ensures x in t.gray || x in Later(t) || Done(t, x)
    {
      if x !in s.gray && x !in Later(s) {
        assert x != th;
        StackDone(s, th, gt, stack, x);
      }
    }
  }

  lemma StackDone(s: State, th: Ref, gt: Value, stack: seq<Value>, x: Ref)
    requires OpenLists(s) && StackFits(s, th, |stack|) && x in s.objs && x in s.mark && x != th
    requires !s.objs[x].Open? && x !in s.weak && Done(s, x)
    ensures Done(WriteStack(s, th, gt, stack), x)
  {
    StackRefs(s, th, gt, stack, x);
    hide Refs, OpenLists;
  }

  lemma WriteStackInv(s: State, th: Ref, gt: Value, stack: seq<Value>)
    requires Inv(s) && StackFits(s, th, |stack|) && AllAlive(s, [gt] + stack)
    ensures Inv(WriteStack(s, th, gt, stack))
  {
    hide RootListBut, StringTable, LiveHeap, Colors, PhaseInv;
    Aspects(s, {});
    StackLists(s, th, gt, stack);
    StackLive(s, th, gt, stack);
    StackPhase(s, th, gt, stack);
  }

  lemma WriteUpvalInv(s: State, u: Ref, v: Value)
    requires Inv(s) && Alive(s, u) && AliveValue(s, v) && (s.objs[u].Open? || s.objs[u].Closed?)
    ensures s.mark.Keys == s.objs.Keys
    ensures s.objs[u].Open? ==>
      var th := s.objs[u].thread; th in s.objs && s.objs[th].Thread? && s.objs[u].level < |s.objs[th].stack|
    ensures Inv(WriteUpval(s, u, v))
  {
    hide RootListBut, StringTable, LiveHeap, PhaseInv;
    Aspects(s, {});
    if s.objs[u].Open? {
      OpenUpvalWrite(s, u, v);
    } else {
      assert Replaced(s, s.(objs := s.objs[u := Closed(v)]), u, [v]);
      WriteObjectInv(s, u, Closed(v), v);
    }
  }

  /** An open upvalue is never black: its barrier does nothing.  The slot may
      belong to a thread that is dead; its other slots are left alone. */
  lemma OpenUpvalWrite(s: State, u: Ref, v: Value)
    requires Inv(s) && Alive(s, u) && AliveValue(s, v) && s.objs[u].Open?
    ensures s.mark.Keys == s.objs.Keys
    ensures var th := s.objs[u].thread; th in s.objs && s.objs[th].Thread? && s.objs[u].level < |s.objs[th].stack|
    ensures Inv(WriteUpval(s, u, v))
  {
    hide RootListBut, StringTable, PhaseInv;
    Aspects(s, {});
    var th := s.objs[u].thread;
    assert OpenList(s, th);
    var i :| 0 <= i < |s.objs[th].open| && s.objs[th].open[i] == u;
    var stack := s.objs[th].stack[s.objs[u].level := v];
    assert StackFits(s, th, |stack|) by {
      forall x <- s.objs[th].open ensures s.objs[x].level < |stack| {
        var j :| 0 <= j < |s.objs[th].open| && s.objs[th].open[j] == x;
      }
    }
    SlotLive(s, th, s.objs[u].level, v);
    StackLists(s, th, s.objs[th].gt, stack);
    StackPhase(s, th, s.objs[th].gt, stack);
  }

  /** One slot changes: the thread, if it is alive, and its open upvalues refer
      to nothing new but `v`. */
  lemma SlotLive(s: State, th: Ref, level: nat, v: Value)
    requires LiveHeap(s) && OpenLists(s) && th in s.objs && s.objs[th].Thread? && level < |s.objs[th].stack|
    requires AliveValue(s, v)
    ensures LiveHeap(WriteStack(s, th, s.objs[th].gt, s.objs[th].stack[level := v]))
  {
    var t := WriteStack(s, th, s.objs[th].gt, s.objs[th].stack[level := v]);
    forall x ensures Alive(s, x) <==> Alive(t, x) {}
    forall x <- t.objs | !IsDead(t, x)
      ensures x in s.objs && !IsDead(s, x) && forall w <- Refs(t, t.objs[x]) :: w in Refs(s, s.objs[x]) || AliveValue(t, w)
    {
      SlotRefs(s, th, level, v, x);
    }
    hide Refs;
    LiveTransfer(s, t);
  }

  lemma SlotRefs(s: State, th: Ref, level: nat, v: Value, x: Ref)
    requires th in s.objs && s.objs[th].Thread? && level < |s.objs[th].stack| && x in s.objs
    ensures var t := WriteStack(s, th, s.objs[th].gt, s.objs[th].stack[level := v]);
            x in t.objs && forall w <- Refs(t, t.objs[x]) :: w in Refs(s, s.objs[x]) || w == v
  {
    hide Contents;
  }
}
