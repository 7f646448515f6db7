/** Closing upvalues keeps the invariant, in every phase. */
module GcClose {
  import opened GcHeap
  import opened GcMark
  import opened GcPropagate
  import opened GcAtomic
  import opened GcInvariant
  import opened GcBarrier

  lemma RefsAfterClose(s: State, t: State, th: Ref, r: Ref)
    requires ClosedOne(s, t, th) && r in t.objs
    ensures r in s.objs && Refs(t, t.objs[r]) == Refs(s, s.objs[r])
  {
    hide Contents;
    assert OpenList(s, th);
    var u := s.objs[th].open[0];
    if r == u && !IsDead(s, u) {
      assert t.objs[u] == Closed(UpvalValue(s, s.objs[u]));
    }
  }

  /** The same, object by object and list by list. */
  ghost predicate CloseShape(s: State, t: State, th: Ref, u: Ref) {
    match t case State(_, _, _, _, _, _) =>
    && th in s.objs && s.objs[th].Thread? && th in t.objs && t.objs[th].Thread?
    && u in s.objs && s.objs[u].Open? && s.objs[u].thread == th && u != th
    && t.mark.Keys == t.objs.Keys && s.mark.Keys == s.objs.Keys
    && (forall r :: r in t.objs <==> r in s.objs && !(r == u && IsDead(s, u)))
    && (forall r <- t.objs :: r == u || r == th || t.objs[r] == s.objs[r])
    && (u in t.objs ==> t.objs[u].Closed?)
    && t.g == s.g.(swept := t.g.swept, rest := t.g.rest, uvhead := t.g.uvhead)
    && (forall r <- s.g.swept :: r in t.g.swept) && (forall r <- s.g.rest :: r in t.g.rest)
    && (forall r <- t.g.swept :: r in s.g.swept || (r == u && !IsDead(s, u)))
    && (forall r <- t.g.rest :: r in s.g.rest || (r == u && !IsDead(s, u)))
    && (!IsDead(s, u) ==> u in t.g.swept || u in t.g.rest)
    && (s.g.swept == [] ==> t.g.swept == [])
  }

  lemma CloseShapes(s: State, t: State, th: Ref)
    requires ClosedOne(s, t, th)
    ensures s.objs[th].open != [] && CloseShape(s, t, th, s.objs[th].open[0])
  {
    hide UpvalValue, Distinct;
    assert OpenList(s, th);
  }

  lemma CloseRootList(s: State, t: State, th: Ref, limbo: set<Ref>)
    requires ClosedOne(s, t, th) && RootListBut(s, limbo)
    requires forall x <- limbo :: x in s.objs && Rooted(s.objs[x])
    ensures RootListBut(t, limbo)
    ensures forall x <- limbo :: x in t.objs && Rooted(t.objs[x])
  {
    hide UpvalValue, OpenLists, StringTable;
    CloseShapes(s, t, th);
    CloseDistinct(s, t, th, limbo);
    hide ClosedOne;
  }

  lemma CloseDistinct(s: State, t: State, th: Ref, limbo: set<Ref>)
    requires ClosedOne(s, t, th) && RootListBut(s, limbo)
    ensures Distinct(t.g.swept) && Distinct(t.g.rest) && Disjoint(t.g.swept, t.g.rest)
  {
    hide UpvalValue, OpenLists, StringTable;
    CloseShapes(s, t, th);
    var u := s.objs[th].open[0];
    assert u !in s.g.swept && u !in s.g.rest;
    assert forall r :: r in [u] + s.g.rest <==> r == u || r in s.g.rest;
    assert forall r :: r in [u] + s.g.swept <==> r == u || r in s.g.swept;
    assert Distinct([u] + s.g.rest) && Distinct([u] + s.g.swept);
  }

  lemma CloseStrings(s: State, t: State, th: Ref)
    requires ClosedOne(s, t, th) && StringTable(s)
    ensures StringTable(t)
  {
    CloseShapes(s, t, th);
    hide ClosedOne, StringTable;
    StringTableSame(s, t);
  }

  /** What closing does to the marks, outside the marking phase. */
  ghost predicate MarksClosed(s: State, t: State, u: Ref) {
    match t case State(_, _, _, _, _, _) =>
    && u in s.mark
    && (if IsDead(s, u) then t.mark == s.mark - {u}
        else t.mark == s.mark[u := s.mark[u].(color := if s.mark[u].color.Gray? then White(s.g.cur) else s.mark[u].color)])
  }

  lemma CloseOneMarks(s: State, th: Ref)
    requires Closable(s, th) && s.objs[th].open != []
    requires s.g.phase != Propagate || !IsGray(s, s.objs[th].open[0])
    ensures MarksClosed(s, CloseOne(s, th), s.objs[th].open[0])
    ensures s.g.phase == Propagate ==>
      var t := CloseOne(s, th); t.gray == s.gray && t.grayagain == s.grayagain && t.weak == s.weak
  {
    hide Refs, UpvalValue;
    assert OpenList(s, th);
  }

  lemma CloseAlive(s: State, t: State, th: Ref)
    requires ClosedOne(s, t, th) && MarksClosed(s, t, s.objs[th].open[0]) && Colors(s)
    ensures forall r :: Alive(s, r) ==> Alive(t, r)
    ensures forall r :: IsDead(t, r) ==> IsDead(s, r)
    ensures forall r <- t.objs :: IsDead(s, r) ==> IsDead(t, r)
    ensures forall r <- t.mark :: t.mark[r].fixed == s.mark[r].fixed
    ensures forall r <- t.objs :: ColorOk(t.objs[r], t.mark[r].color)
  {
    CloseShapes(s, t, th);
    hide ClosedOne;
  }

  lemma CloseLive(s: State, t: State, th: Ref)
    requires ClosedOne(s, t, th)
    requires forall r :: Alive(s, r) ==> Alive(t, r)
    requires forall r <- t.objs :: IsDead(s, r) ==> IsDead(t, r)
    requires LiveHeap(s)
    ensures LiveHeap(t)
  {
    hide Refs, UpvalValue;
    forall r <- t.objs | !IsDead(t, r) ensures AllAlive(t, Refs(t, t.objs[r])) {
      RefsAfterClose(s, t, th, r);
      assert AllAlive(s, Refs(s, s.objs[r]));
    }
  }

  lemma CloseColors(s: State, t: State, th: Ref)
    requires ClosedOne(s, t, th) && Colors(s)
    requires forall r <- t.mark :: t.mark[r].fixed == s.mark[r].fixed
    requires forall r <- t.objs :: ColorOk(t.objs[r], t.mark[r].color)
    ensures Colors(t)
  {
    CloseShapes(s, t, th);
    hide ClosedOne;
  }

  lemma CloseWhites(s: State, t: State, th: Ref)
    requires ClosedOne(s, t, th) && MarksClosed(s, t, s.objs[th].open[0]) && Colors(s)
    ensures forall r <- t.objs :: CurWhite(s, r) ==> CurWhite(t, r)
    ensures s.objs[th].open[0] in t.objs ==> CurWhite(t, s.objs[th].open[0])
  {
    CloseShapes(s, t, th);
    hide ClosedOne;
  }

  lemma CloseSweep(s: State, t: State, th: Ref, u: Ref)
    requires CloseShape(s, t, th, u) && s.g.phase == Sweep && PhaseInv(s) && OpenLists(s)
    requires forall r <- t.objs :: CurWhite(s, r) ==> CurWhite(t, r)
    requires u in t.objs ==> CurWhite(t, u)
    requires forall r <- t.g.swept :: r in t.objs
    ensures PhaseInv(t)
  {}

  lemma CloseSweptPresent(t: State, limbo: set<Ref>)
    requires RootListBut(t, limbo)
    ensures forall r <- t.g.swept :: r in t.objs
  {}

  lemma CloseSweepString(s: State, t: State, th: Ref, u: Ref)
    requires CloseShape(s, t, th, u) && s.g.phase == SweepString && PhaseInv(s) && StringTable(s)
    requires forall r <- t.objs :: CurWhite(s, r) ==> CurWhite(t, r)
    ensures PhaseInv(t)
  {
    InTable(s, u);
    hide StringTable;
  }

  lemma InTable(s: State, u: Ref)
    requires StringTable(s) && u in s.objs && s.objs[u].Open?
    ensures forall b, r :: 0 <= b < |s.g.strt| && r in s.g.strt[b] ==> r in s.objs && s.objs[r].Str? && r != u
  {
    hide Strings, Distinct;
  }

  lemma ClosePhase(s: State, t: State, th: Ref, limbo: set<Ref>)
    requires ClosedOne(s, t, th) && MarksClosed(s, t, s.objs[th].open[0])
    requires Colors(s) && StructureBut(s, limbo) && PhaseInv(s) && s.g.phase != Propagate
    requires RootListBut(t, limbo)
    ensures PhaseInv(t)
  {
    CloseShapes(s, t, th);
    CloseWhites(s, t, th);
    hide ClosedOne, OpenLists, MarksClosed, Colors, StringTable;
    var u := s.objs[th].open[0];
    if s.g.phase == Sweep {
      CloseSweptPresent(t, limbo);
      CloseSweep(s, t, th, u);
    } else if s.g.phase == SweepString {
      CloseSweepString(s, t, th, u);
    }
  }

  /** Everything but the upvalue itself stays scanned. */
  lemma CloseScanned(s: State, t: State, th: Ref)
    requires ClosedOne(s, t, th) && s.mark.Keys == s.objs.Keys && Scanned(s, Later(s))
    requires t.gray == s.gray && t.grayagain == s.grayagain && t.weak == s.weak
    requires forall r <- t.mark :: r == s.objs[th].open[0] || t.mark[r] == s.mark[r]
    requires !IsDead(s, s.objs[th].open[0])
    requires s.objs[th].open[0] in t.mark && (t.mark[s.objs[th].open[0]].color.White? ==> IsWhite(s, s.objs[th].open[0]))
    ensures t.mark.Keys == t.objs.Keys && Scanned(t, Later(t) + {s.objs[th].open[0]})
  {
    hide Refs, Done;
    CloseShapes(s, t, th);
    var u := s.objs[th].open[0];
    hide ClosedOne;
    forall r <- t.mark | !IsWhite(t, r) && r != u
      ensures r in t.gray || r in Later(t) || Done(t, r)
    {
      if r !in s.gray && r !in Later(s) { CloseDone(s, t, th, r); }
    }
  }

  /** An upvalue that is not gray is white, hence not in question. */
  lemma CloseWhite(s: State, t: State, u: Ref)
    requires Colors(s) && u in s.objs && s.objs[u].Open? && !IsGray(s, u) && t.mark == s.mark
    requires t.mark.Keys == t.objs.Keys && Scanned(t, Later(t) + {u})
    ensures Scanned(t, Later(t))
  {
    hide Done;
    assert IsWhite(t, u);
  }

  lemma CloseSameMarks(s: State, t: State, u: Ref)
    requires MarksClosed(s, t, u) && !IsGray(s, u) && !IsDead(s, u)
    ensures t.mark == s.mark
  {}

  lemma CloseGrayListed(s: State, t: State, th: Ref, u: Ref)
    requires CloseShape(s, t, th, u) && GrayListed(s)
    requires t.gray == s.gray && t.grayagain == s.grayagain && t.weak == s.weak
    requires forall r <- t.mark :: r == u || t.mark[r] == s.mark[r]
    ensures GrayListed(t)
  {}

  lemma CloseTriColor(s: State, t: State, th: Ref)
    requires ClosedOne(s, t, th) && NoDead(s) && TriColor(s) && Colors(s)
    requires !IsGray(s, s.objs[th].open[0]) && MarksClosed(s, t, s.objs[th].open[0])
    requires t.gray == s.gray && t.grayagain == s.grayagain && t.weak == s.weak
    ensures NoDead(t) && TriColor(t)
  {
    hide Refs, Done, ListsGray, Scanned, GrayListed, Later, ColorOk;
    CloseShapes(s, t, th);
    var u := s.objs[th].open[0];
    assert u in s.mark && !IsDead(s, u);
    CloseSameMarks(s, t, u);
    hide MarksClosed;
    CloseLists(s, t, th);
    CloseScanned(s, t, th);
    hide ClosedOne;
    CloseWhite(s, t, u);
    CloseGrayListed(s, t, th, u);
  }

  /** Closing touches none of the gray lists. */
  lemma CloseLists(s: State, t: State, th: Ref)
    requires ClosedOne(s, t, th) && ListsGray(s)
    requires t.gray == s.gray && t.grayagain == s.grayagain && t.weak == s.weak
    requires forall r <- t.mark :: r == s.objs[th].open[0] || t.mark[r] == s.mark[r]
    requires s.objs[th].open[0] in t.mark
    ensures ListsGray(t)
  {
    CloseShapes(s, t, th);
    var u := s.objs[th].open[0];
    hide ClosedOne, Distinct, Disjoint;
    assert u !in s.gray && u !in s.grayagain && u !in s.weak;
  }

  lemma CloseDone(s: State, t: State, th: Ref, r: Ref)
    requires ClosedOne(s, t, th) && r in s.objs && r in s.mark && r in t.objs && r in t.mark && Done(s, r)
    requires forall x :: IsWhite(t, x) ==> IsWhite(s, x)
    requires t.weak == s.weak
    requires r in s.weak ==> t.mark[r] == s.mark[r]
    ensures Done(t, r)
  {
    hide UpvalValue;
    RefsAfterClose(s, t, th, r);
    assert OpenList(s, th);
    if !AllMarked(s, Refs(s, s.objs[r])) {
      assert t.objs[r] == s.objs[r];
      assert Mode(t, t.objs[r].mt) == Mode(s, s.objs[r].mt);
      assert StrongRefs(t, t.objs[r]) == StrongRefs(s, s.objs[r]);
    }
  }

  // ---- A gray upvalue closed while marking --------------------------------

  /** The state in which the barrier of `luaC_linkupval` runs. */
  lemma CloseGray(s: State, th: Ref)
    requires Closable(s, th) && s.objs[th].open != [] && s.g.phase == Propagate && NoDead(s)
    requires IsGray(s, s.objs[th].open[0])
    ensures var u, t := s.objs[th].open[0], CloseOne(s, th);
            var m := t.(mark := s.mark[u := s.mark[u].(color := Black)], gray := s.gray);
            && Extends(m, t) && t == m.(mark := t.mark, gray := t.gray)
            && m.grayagain == s.grayagain && m.weak == s.weak
            && ClosedOne(s, m, th)
            && Marked(t, UpvalValue(s, s.objs[u]))
  {
    hide Extends, Refs;
    assert OpenList(s, th);
    CloseOneObjs(s, th);
    var u, t := s.objs[th].open[0], CloseOne(s, th);
    var v := UpvalValue(s, s.objs[u]);
    var s1 := s.(objs := s.objs[th := s.objs[th].(open := s.objs[th].open[1..])]);
    var s2 := s1.(objs := s1.objs[u := Closed(v)], g := s1.g.(uvhead := Without(s1.g.uvhead, u)));
    var m := SetColor(LinkRoot(s2, u), u, Black);
    assert t == BarrierForward(m, u, v);
    if v.Gc? && IsWhite(m, v.ref) {
      ExtendsFrame(m, t);
    } else {
      ExtendsSelf(m);
    }
    assert m == t.(mark := s.mark[u := s.mark[u].(color := Black)], gray := s.gray);
  }

  lemma ExtendsSelf(s: State)
    requires s.mark.Keys == s.objs.Keys
    ensures Extends(s, s)
  {}

  lemma CloseGrayTriColor(s: State, m: State, t: State, th: Ref)
    requires ClosedOne(s, m, th) && NoDead(s) && TriColor(s) && Colors(s)
    requires IsGray(s, s.objs[th].open[0])
    requires m.mark == s.mark[s.objs[th].open[0] := s.mark[s.objs[th].open[0]].(color := Black)]
    requires m.gray == s.gray && m.grayagain == s.grayagain && m.weak == s.weak
    requires Extends(m, t)
    requires Marked(t, UpvalValue(s, s.objs[s.objs[th].open[0]]))
    ensures TriColor(t)
  {
    hide Refs, UpvalValue, Extends, Done, Scanned, GrayListed, Later;
    var u := s.objs[th].open[0];
    CloseShapes(s, m, th);
    CloseLists(s, m, th);
    CloseScanned(s, m, th);
    CloseGrayListed(s, m, th, u);
    CloseGrayEnd(s, m, t, th, u);
  }

  lemma CloseGrayEnd(s: State, m: State, t: State, th: Ref, u: Ref)
    requires ClosedOne(s, m, th) && NoDead(s) && TriColor(s) && u == s.objs[th].open[0]
    requires ListsGray(m) && GrayListed(m) && Scanned(m, Later(m) + {u}) && Extends(m, t)
    requires Marked(t, UpvalValue(s, s.objs[u]))
    requires !IsWhite(m, s.g.main) && Marked(m, s.g.registry) && m.g.main == s.g.main && m.g.registry == s.g.registry
    ensures TriColor(t)
  {
    hide Refs, UpvalValue, Extends, ClosedOne, ListsGray, Done, GrayListed;
    ExtendsMarked(m, t, [Gc(s.g.main), s.g.registry]);
    ExtendsScanned(m, t, Later(m) + {u});
    ExtendsListsGray(m, t);
    ExtendsGrayListed(m, t);
    LaterGrows(m, t);
    ClosedDone(s, m, t, th);
    ScannedDrop(t, Later(m) + {u}, Later(t), u);
    ExtendsFrame(m, t);
    assert Gc(s.g.main) in [Gc(s.g.main), s.g.registry] && s.g.registry in [Gc(s.g.main), s.g.registry];
  }

  lemma ClosedDone(s: State, m: State, t: State, th: Ref)
    requires ClosedOne(s, m, th) && Extends(m, t) && !IsDead(s, s.objs[th].open[0])
    requires Marked(t, UpvalValue(s, s.objs[s.objs[th].open[0]]))
    ensures s.objs[th].open[0] in t.objs && Done(t, s.objs[th].open[0])
  {
    hide UpvalValue;
    assert OpenList(s, th);
    var u := s.objs[th].open[0];
    assert Refs(t, t.objs[u]) == [UpvalValue(s, s.objs[u])];
  }

  lemma ScannedDrop(s: State, a: set<Ref>, b: set<Ref>, u: Ref)
    requires s.mark.Keys == s.objs.Keys && Scanned(s, a) && a <= b + {u} && u in s.objs && Done(s, u)
    ensures Scanned(s, b)
  {
    hide Done;
  }

  // ---- The invariant ------------------------------------------------------

  lemma CloseOneInv(s: State, th: Ref, limbo: set<Ref>)
    requires InvBut(s, limbo) && th in s.objs && s.objs[th].Thread? && s.objs[th].open != []
    requires forall x <- limbo :: x in s.objs && Rooted(s.objs[x])
    ensures Closable(s, th) && InvBut(CloseOne(s, th), limbo)
    ensures ClosedOne(s, CloseOne(s, th), th)
    ensures forall x <- limbo :: x in CloseOne(s, th).objs && Rooted(CloseOne(s, th).objs[x])
    ensures forall r <- CloseOne(s, th).objs :: IsDead(CloseOne(s, th), r) <==> IsDead(s, r)
  {
    hide Refs, UpvalValue, LiveHeap, Colors, StringTable, TriColor, CloseOne, ClosedOne, MarksClosed;
    Aspects(s, limbo);
    ColorsKeys(s);
    var t := CloseOne(s, th);
    CloseOneObjs(s, th);
    CloseOneClosable(s, t, th);
    CloseRootList(s, t, th, limbo);
    CloseStrings(s, t, th);
    if s.g.phase == Propagate && IsGray(s, s.objs[th].open[0]) {
      CloseGrayInv(s, t, th);
    } else {
      CloseOneMarks(s, th);
      CloseAlive(s, t, th);
      CloseLive(s, t, th);
      CloseColors(s, t, th);
      CloseFrame(s, t, th);
      if s.g.phase == Propagate { CloseTriColor(s, t, th); } else { ClosePhase(s, t, th, limbo); }
    }
  }

  lemma CloseFrame(s: State, t: State, th: Ref)
    requires ClosedOne(s, t, th)
    ensures t.g.phase == s.g.phase && t.mark.Keys == t.objs.Keys && t.g.cur == s.g.cur
  {
    hide UpvalValue;
  }

  lemma CloseGrayInv(s: State, t: State, th: Ref)
    requires Closable(s, th) && s.objs[th].open != [] && t == CloseOne(s, th) && ClosedOne(s, t, th)
    requires s.g.phase == Propagate && NoDead(s) && TriColor(s) && LiveHeap(s) && Colors(s)
    requires IsGray(s, s.objs[th].open[0])
    ensures LiveHeap(t) && Colors(t) && PhaseInv(t)
    ensures forall r <- t.objs :: IsDead(t, r) <==> IsDead(s, r)
  {
    hide Refs, UpvalValue, LiveHeap, Colors, TriColor, CloseOne, ClosedOne, Extends;
    var u := s.objs[th].open[0];
    var m := t.(mark := s.mark[u := s.mark[u].(color := Black)], gray := s.gray);
    CloseGray(s, th);
    CloseGrayTriColor(s, m, t, th);
    CloseGrayMarks(s, m, t, th);
    CloseLive(s, t, th);
    CloseColors(s, t, th);
    CloseFrame(s, t, th);
  }

  lemma CloseGrayMarks(s: State, m: State, t: State, th: Ref)
    requires ClosedOne(s, t, th) && ClosedOne(s, m, th) && Colors(s) && NoDead(s) && Extends(m, t) && IsGray(s, s.objs[th].open[0])
    requires m.mark == s.mark[s.objs[th].open[0] := s.mark[s.objs[th].open[0]].(color := Black)]
    ensures NoDead(t)
    ensures forall r :: Alive(s, r) ==> Alive(t, r)
    ensures forall r <- t.objs :: !IsDead(s, r)
    ensures forall r <- t.mark :: t.mark[r].fixed == s.mark[r].fixed
    ensures forall r <- t.objs :: ColorOk(t.objs[r], t.mark[r].color)
  {
    hide Refs, UpvalValue, ColorOk;
    ExtendsMarks(m, t);
    ExtendsFrame(m, t);
    CloseShapes(s, m, th);
    CloseGrayColors(s, m, t, th, s.objs[th].open[0]);
    CloseShapes(s, t, th);
    hide ClosedOne, Extends;
    CloseGrayAlive(s, m, t, th, s.objs[th].open[0]);
  }

  lemma CloseGrayAlive(s: State, m: State, t: State, th: Ref, u: Ref)
    requires CloseShape(s, m, th, u) && CloseShape(s, t, th, u) && NoDead(s) && MarksAfter(m, t)
    requires m.mark == s.mark[u := s.mark[u].(color := Black)]
    ensures NoDead(t)
    ensures forall r :: Alive(s, r) ==> Alive(t, r)
    ensures forall r <- t.objs :: !IsDead(s, r)
    ensures forall r <- t.mark :: t.mark[r].fixed == s.mark[r].fixed
  {}

  lemma CloseGrayColors(s: State, m: State, t: State, th: Ref, u: Ref)
    requires CloseShape(s, m, th, u) && Colors(s) && MarksAfter(m, t) && !IsDead(s, u)
    requires m.mark == s.mark[u := s.mark[u].(color := Black)]
    ensures forall r <- t.objs :: ColorOk(t.objs[r], t.mark[r].color)
  {}

  lemma {:induction false} CloseUpvalsInv(s: State, th: Ref, level: nat, limbo: set<Ref>)
    requires InvBut(s, limbo) && th in s.objs && s.objs[th].Thread?
    requires forall x <- limbo :: x in s.objs && Rooted(s.objs[x])
    ensures Closable(s, th) && InvBut(CloseUpvals(s, th, level), limbo)
    decreases |s.objs[th].open|
  {
    hide LiveHeap, PhaseInv, StringTable, CloseOne, ClosedOne;
    Aspects(s, limbo);
    assert Closable(s, th);
    assert OpenList(s, th);
    if s.objs[th].open != [] && s.objs[s.objs[th].open[0]].level >= level {
      CloseOneInv(s, th, limbo);
      CloseOneClosable(s, CloseOne(s, th), th);
      CloseUpvalsInv(CloseOne(s, th), th, level, limbo);
    }
  }

  // ---- What closing does --------------------------------------------------

  /** An open upvalue of the thread at or above the level. */
  predicate Leaving(s: State, th: Ref, level: nat, u: Ref) {
    u in s.objs && s.objs[u].Open? && s.objs[u].thread == th && s.objs[u].level >= level
  }

  /** Exactly the open upvalues of the thread at or above the level are closed, with
      the values of their stack slots, or freed if dead; nothing else changes. */
  ghost predicate ClosedFrom(s: State, t: State, th: Ref, level: nat) {
    match t case State(_, _, _, _, _, _) =>
    && th in s.objs && s.objs[th].Thread? && th in t.objs && t.objs[th].Thread?
    && (forall r :: r in t.objs <==> r in s.objs && !(Leaving(s, th, level, r) && IsDead(s, r)))
    && (forall r <- t.objs :: r in s.objs && r != th ==> t.objs[r] == if Leaving(s, th, level, r) then Closed(UpvalValue(s, s.objs[r])) else s.objs[r])
    && t.objs[th].gt == s.objs[th].gt && t.objs[th].stack == s.objs[th].stack
    && forall u :: u in t.objs[th].open <==> u in s.objs[th].open && !Leaving(s, th, level, u)
  }

  /** The loop of `luaF_close`. */
  lemma {:induction false} CloseUpvalsEffect(s: State, th: Ref, level: nat)
    requires Inv(s) && th in s.objs && s.objs[th].Thread?
    ensures Closable(s, th) && Inv(CloseUpvals(s, th, level)) && ClosedFrom(s, CloseUpvals(s, th, level), th, level)
    decreases |s.objs[th].open|
  {
    hide LiveHeap, PhaseInv, StringTable, Colors, CloseOne, ClosedOne, ClosedFrom;
    CloseUpvalsInv(s, th, level, {});
    Aspects(s, {});
    assert OpenList(s, th);
    if s.objs[th].open != [] && s.objs[s.objs[th].open[0]].level >= level {
      var t := CloseOne(s, th);
      CloseOneInv(s, th, {});
      CloseOneClosable(s, t, th);
      CloseUpvalsEffect(t, th, level);
      CloseThen(s, t, CloseUpvals(t, th, level), th, level);
    } else {
      NoneAbove(s, th, level);
    }
  }

  lemma NoneAbove(s: State, th: Ref, level: nat)
    requires OpenLists(s) && th in s.objs && s.objs[th].Thread?
    requires s.objs[th].open != [] ==> s.objs[th].open[0] in s.objs && s.objs[s.objs[th].open[0]].Open? && s.objs[s.objs[th].open[0]].level < level
    ensures ClosedFrom(s, s, th, level)
  {
    hide UpvalValue;
    var l := s.objs[th].open;
    assert OpenList(s, th);
    forall u | u in s.objs && s.objs[u].Open? && s.objs[u].thread == th ensures s.objs[u].level < level {
      var j :| 0 <= j < |l| && l[j] == u;
      assert j > 0 ==> s.objs[l[0]].level > s.objs[l[j]].level;
    }
  }

  /** One round, and all that follow. */
  lemma CloseThen(s: State, t: State, w: State, th: Ref, level: nat)
    requires ClosedOne(s, t, th) && ClosedFrom(t, w, th, level) && s.objs[s.objs[th].open[0]].level >= level
    requires forall r <- t.objs :: IsDead(t, r) <==> IsDead(s, r)
    ensures ClosedFrom(s, w, th, level)
  {
    hide ClosedOne, UpvalValue, ClosedFrom, OpenLists;
    RoundObjs(s, t, th, level);
    RoundValues(s, t, th);
    var u := s.objs[th].open[0];
    RoundThen(s, t, w, th, level, u);
  }

  /** One round, seen from the upvalues. */
  ghost predicate Round(s: State, t: State, th: Ref, level: nat, u: Ref) {
    && th in s.objs && s.objs[th].Thread? && th in t.objs && t.objs[th].Thread?
    && u in s.objs && Leaving(s, th, level, u) && u in s.objs[th].open && u != th
    && (forall r :: r in t.objs <==> r in s.objs && !(r == u && IsDead(s, u)))
    && (forall r <- t.objs :: r in s.objs && r != th ==> t.objs[r] == if r == u then Closed(UpvalValue(s, s.objs[u])) else s.objs[r])
    && t.objs[th].gt == s.objs[th].gt && t.objs[th].stack == s.objs[th].stack
    && forall x :: x in t.objs[th].open <==> x in s.objs[th].open && x != u
  }

  lemma RoundObjs(s: State, t: State, th: Ref, level: nat)
    requires ClosedOne(s, t, th) && s.objs[s.objs[th].open[0]].level >= level
    ensures Round(s, t, th, level, s.objs[th].open[0])
  {
    hide UpvalValue, Distinct;
    CloseShapes(s, t, th);
    RoundList(s, t, th);
    hide OpenLists, OpenList;
  }

  lemma RoundList(s: State, t: State, th: Ref)
    requires ClosedOne(s, t, th)
    ensures var l := s.objs[th].open;
            && th in t.objs && t.objs[th].Thread? && t.objs[th].gt == s.objs[th].gt && t.objs[th].stack == s.objs[th].stack
            && forall x :: x in t.objs[th].open <==> x in l && x != l[0]
  {
    hide UpvalValue, Distinct;
    assert OpenList(s, th);
    var l := s.objs[th].open;
    assert l == [l[0]] + l[1..];
    assert forall j :: 0 < j < |l| ==> s.objs[l[j]].level < s.objs[l[0]].level;
  }

  lemma RoundValues(s: State, t: State, th: Ref)
    requires ClosedOne(s, t, th)
    ensures forall r <- t.objs :: r in s.objs && (r != s.objs[th].open[0] ==> UpvalValue(t, t.objs[r]) == UpvalValue(s, s.objs[r]))
  {
    assert OpenList(s, th);
  }

  lemma RoundThen(s: State, t: State, w: State, th: Ref, level: nat, u: Ref)
    requires Round(s, t, th, level, u) && ClosedFrom(t, w, th, level)
    requires forall r <- t.objs :: IsDead(t, r) <==> IsDead(s, r)
    requires forall r <- t.objs :: r in s.objs && (r != u ==> UpvalValue(t, t.objs[r]) == UpvalValue(s, s.objs[r]))
    ensures ClosedFrom(s, w, th, level)
  {
    hide UpvalValue;
    forall r ensures Leaving(s, th, level, r) <==> r == u || Leaving(t, th, level, r) {}
  }

  /** Whoever reads a variable through an upvalue, or in the stack, sees the value
      it had. */
  lemma CloseKeepsValues(s: State, th: Ref, level: nat, u: Ref)
    requires Inv(s) && th in s.objs && s.objs[th].Thread?
    ensures Closable(s, th)
    ensures var t := CloseUpvals(s, th, level);
            u in t.objs ==> u in s.objs && (s.objs[u].Open? || s.objs[u].Closed? ==>
              (t.objs[u].Open? || t.objs[u].Closed?) && UpvalValue(t, t.objs[u]) == UpvalValue(s, s.objs[u]))
  {
    hide LiveHeap, PhaseInv, StringTable, Colors, CloseUpvals;
    CloseUpvalsEffect(s, th, level);
    Aspects(s, {});
  }
}
