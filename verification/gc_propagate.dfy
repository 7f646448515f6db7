/** Traversing gray objects: `propagatemark`, `traversetable` and
    `propagateall`. */
module GcPropagate {
  import opened GcHeap
  import opened GcMark

  /** The head of the gray list can be traversed. */
  ghost predicate Ready(s: State) {
    match s case State(_, _, _, _, _, _) =>
    && s.mark.Keys == s.objs.Keys
    && s.gray != []
    && s.gray[0] in s.objs
    && IsGray(s, s.gray[0])
    && Container(s.objs[s.gray[0]])
  }

  function SetWeakBits(s: State, o: Ref, kw: bool, vw: bool): State
    requires o in s.mark
  {
    s.(mark := s.mark[o := s.mark[o].(keyWeak := kw, valueWeak := vw)])
  }

  /** `traversetable`: a weak table goes to the `weak` list and stays gray. */
  function TraverseTable(s: State, o: Ref): State
    requires s.mark.Keys == s.objs.Keys && o in s.objs && s.objs[o].Table?
  {
    var h := s.objs[o];
    var s1 := MarkOpt(s, h.mt);
    var (kw, vw) := Mode(s1, h.mt);
    if kw || vw then
      var s2 := SetWeakBits(s1, o, kw, vw).(weak := [o] + s1.weak);
      SetColor(MarkAll(s2, Contents(h, kw, vw)), o, Gray)
    else
      MarkAll(s1, Contents(h, false, false))
  }

  /** `propagatemark`: takes the first gray object and traverses it. */
  function PropagateMark(s: State): State
    requires Ready(s)
  {
    var o := s.gray[0];
    var s1 := SetColor(s, o, Black).(gray := s.gray[1..]);
    if s.objs[o].Table? then TraverseTable(s1, o)
    else if s.objs[o].Thread? then
      MarkAll(SetColor(s1, o, Gray).(grayagain := [o] + s.grayagain), Refs(s, s.objs[o]))
    else MarkAll(s1, Refs(s, s.objs[o]))
  }

  // ---- What one traversal achieves ----------------------------------------

  /** Everything but `o` is as after some marking; `o` has left the gray list. */
  ghost predicate Around(s: State, t: State, o: Ref) {
    match s case State(_, _, _, _, _, _) =>
    && t == s.(mark := t.mark, gray := t.gray, grayagain := t.grayagain, weak := t.weak)
    && s.mark.Keys == s.objs.Keys
    && t.mark.Keys == s.mark.Keys
    && s.gray != [] && o == s.gray[0] && o in s.mark
    && (forall r <- s.mark :: t.mark[r].fixed == s.mark[r].fixed)
    && (forall r <- s.mark :: r == o || t.mark[r] == s.mark[r] ||
         (s.mark[r].color.White? && !t.mark[r].color.White? && Handled(t, r)))
    && (Whites(t) == Whites(s) ==> t.gray == s.gray[1..])
    && Grown(s, t, s.gray[1..], t.gray)
  }

  ghost predicate Propagated(s: State, t: State) {
    match s case State(_, _, _, _, _, _) =>
    && s.gray != []
    && var o := s.gray[0];
    && o in s.objs && Container(s.objs[o])
    && Around(s, t, o)
    && if t.mark[o].color.Black? then
         && !s.objs[o].Thread?
         && AllMarked(t, Refs(t, s.objs[o]))
         && t.grayagain == s.grayagain && t.weak == s.weak
         && t.mark[o] == s.mark[o].(color := Black)
       else
         && t.mark[o].color.Gray?
         && if s.objs[o].Thread? then
              && AllMarked(t, Refs(t, s.objs[o]))
              && t.grayagain == [o] + s.grayagain && t.weak == s.weak
              && t.mark[o] == s.mark[o].(color := Gray)
            else
              && s.objs[o].Table?
              && t.grayagain == s.grayagain && t.weak == [o] + s.weak
              && AllMarked(t, StrongRefs(t, s.objs[o]))
              && (t.mark[o].keyWeak, t.mark[o].valueWeak) == Mode(t, s.objs[o].mt)
  }

  lemma AroundExtends(s: State, p: State, t: State, o: Ref)
    requires Ready(s) && o == s.gray[0]
    requires p == s.(mark := p.mark, gray := s.gray[1..], grayagain := p.grayagain, weak := p.weak)
    requires p.mark.Keys == s.mark.Keys
    requires forall r <- s.mark :: r != o ==> p.mark[r] == s.mark[r]
    requires p.mark[o].fixed == s.mark[o].fixed && !p.mark[o].color.White?
    requires Extends(p, t)
    ensures Around(s, t, o)
    ensures t.mark[o] == p.mark[o] && t.grayagain == p.grayagain && t.weak == p.weak
  {
    if Whites(t) == Whites(s) {
      assert forall r <- p.mark :: r in Whites(s) <==> r in Whites(t);
      assert t.mark == p.mark;
    }
  }

  lemma AroundRecolor(s: State, t: State, o: Ref)
    requires Ready(s) && Around(s, t, o) && !t.mark[o].color.White?
    ensures Around(s, SetColor(t, o, Gray), o)
    ensures forall vs :: AllMarked(t, vs) ==> AllMarked(SetColor(t, o, Gray), vs)
  {
    var u := SetColor(t, o, Gray);
    forall r <- s.mark | r != o && t.mark[r] != s.mark[r]
      ensures Handled(u, r)
    {
      RefsSame(t, u, s.objs[r]);
    }
  }

  lemma TraverseTableSpec(s: State)
    requires Ready(s) && s.objs[s.gray[0]].Table?
    ensures Propagated(s, PropagateMark(s))
  {
    hide Extends, Propagated, Refs;
    var o := s.gray[0];
    var p := SetColor(s, o, Black).(gray := s.gray[1..]);
    var s1 := MarkOpt(p, s.objs[o].mt);
    ExtendsFrame(p, s1);
    var (kw, vw) := Mode(s1, s.objs[o].mt);
    if kw || vw {
      WeakTableSpec(s, p, s1, o, kw, vw);
    } else {
      StrongTableSpec(s, p, s1, o);
    }
  }

  lemma StrongTableSpec(s: State, p: State, s1: State, o: Ref)
    requires Ready(s) && o == s.gray[0] && s.objs[o].Table?
    requires p == SetColor(s, o, Black).(gray := s.gray[1..])
    requires Extends(p, s1) && AllMarked(s1, OptRef(s.objs[o].mt))
    ensures s1.mark.Keys == s1.objs.Keys
    ensures Propagated(s, MarkAll(s1, Contents(s.objs[o], false, false)))
  {
    hide Extends, Contents;
    ExtendsFrame(p, s1);
    var t := MarkAll(s1, Contents(s.objs[o], false, false));
    ExtendsTrans(p, s1, t);
    ExtendsFrame(p, t);
    ExtendsMarked(s1, t, OptRef(s.objs[o].mt));
    AroundExtends(s, p, t, o);
    assert AllMarked(t, Refs(t, s.objs[o]));
  }

  lemma WeakTableSpec(s: State, p: State, s1: State, o: Ref, kw: bool, vw: bool)
    requires Ready(s) && o == s.gray[0] && s.objs[o].Table?
    requires p == SetColor(s, o, Black).(gray := s.gray[1..])
    requires s1 == MarkOpt(p, s.objs[o].mt) && (kw, vw) == Mode(s1, s.objs[o].mt) && (kw || vw)
    ensures PropagateMark(s) == TraverseTable(p, o)
    ensures Propagated(s, TraverseTable(p, o))
  {
    hide Extends, Handled, UpvalValue, Grown, Contents, Refs, MarkAll, MarkOpt;
    var h := s.objs[o];
    ExtendsFrame(p, s1);
    var s2 := SetWeakBits(s1, o, kw, vw).(weak := [o] + s1.weak);
    var s3 := MarkAll(s2, Contents(h, kw, vw));
    var q := SetWeakBits(p, o, kw, vw).(weak := [o] + p.weak);
    WeakBitsCommute(p, s1, o, kw, vw);
    ExtendsTrans(q, s2, s3);
    AroundExtends(s, q, s3, o);
    WeakStrong(s1, s2, s3, o, kw, vw);
    AroundRecolor(s, s3, o);
    RefsSame(s3, SetColor(s3, o, Gray), h);
  }

  lemma WeakStrong(s1: State, s2: State, s3: State, o: Ref, kw: bool, vw: bool)
    requires o in s1.objs && o in s1.mark && s1.objs[o].Table?
    requires AllMarked(s1, OptRef(s1.objs[o].mt)) && !s1.mark[o].color.White?
    requires (kw, vw) == Mode(s1, s1.objs[o].mt)
    requires s2 == SetWeakBits(s1, o, kw, vw).(weak := [o] + s1.weak)
    requires Extends(s2, s3) && AllMarked(s3, Contents(s1.objs[o], kw, vw))
    ensures AllMarked(s3, StrongRefs(s3, s1.objs[o]))
    ensures Mode(s3, s1.objs[o].mt) == (kw, vw)
    ensures s3.mark[o] == s1.mark[o].(keyWeak := kw, valueWeak := vw)
  {
    assert AllMarked(s2, OptRef(s1.objs[o].mt));
    ExtendsMarked(s2, s3, OptRef(s1.objs[o].mt));
  }

  lemma WeakBitsGrown(p: State, s: State, o: Ref, kw: bool, vw: bool)
    requires Extends(p, s) && o in p.mark
    ensures var p1 := SetWeakBits(p, o, kw, vw).(weak := [o] + p.weak); var s1 := SetWeakBits(s, o, kw, vw).(weak := [o] + s.weak);
            Grown(p1, s1, p1.gray, s1.gray)
  {
    hide Handled;
    var p1 := SetWeakBits(p, o, kw, vw).(weak := [o] + p.weak);
    var s1 := SetWeakBits(s, o, kw, vw).(weak := [o] + s.weak);
    assert forall r :: IsWhite(p1, r) <==> IsWhite(p, r);
    assert forall r :: IsGray(s1, r) <==> IsGray(s, r);
  }

  lemma WeakBitsCommute(p: State, s: State, o: Ref, kw: bool, vw: bool)
    requires Extends(p, s) && o in p.mark && !p.mark[o].color.White?
    ensures Extends(SetWeakBits(p, o, kw, vw).(weak := [o] + p.weak), SetWeakBits(s, o, kw, vw).(weak := [o] + s.weak))
  {
    var p1 := SetWeakBits(p, o, kw, vw).(weak := [o] + p.weak);
    var s1 := SetWeakBits(s, o, kw, vw).(weak := [o] + s.weak);
    forall r <- p1.mark | s1.mark[r] != p1.mark[r]
      ensures p1.mark[r].color.White? && !s1.mark[r].color.White? && Handled(s1, r)
    {
      assert r != o && s.mark[r] != p.mark[r];
      HandledWeakBits(s, s1, o, r);
    }
    WeakBitsGrown(p, s, o, kw, vw);
    hide Grown, Handled;
    assert s1.mark == p1.mark ==> s.mark == p.mark by {
      if s1.mark == p1.mark {
        forall r <- p.mark ensures s.mark[r] == p.mark[r] { assert s1.mark[r] == p1.mark[r]; }
      }
    }
  }

  lemma HandledWeakBits(s: State, t: State, o: Ref, r: Ref)
    requires r in s.objs && r in s.mark && Handled(s, r) && o in s.mark && o in t.mark
    requires t.objs == s.objs && t.gray == s.gray
    requires t.mark == SetWeakBits(s, o, t.mark[o].keyWeak, t.mark[o].valueWeak).mark
    ensures r in t.objs && r in t.mark && Handled(t, r)
  {
    RefsSame(s, t, s.objs[r]);
    hide Refs;
  }

  lemma PropagateSpec(s: State)
    requires Ready(s)
    ensures Propagated(s, PropagateMark(s))
  {
    hide Extends, Handled, UpvalValue, Grown;
    var o := s.gray[0];
    var h := s.objs[o];
    if h.Table? {
      TraverseTableSpec(s);
    } else {
      var p := SetColor(s, o, Black).(gray := s.gray[1..]);
      if h.Thread? {
        p := SetColor(p, o, Gray).(grayagain := [o] + s.grayagain);
      }
      var t := MarkAll(p, Refs(s, h));
      AroundExtends(s, p, t, o);
      RefsSame(s, t, h);
    }
  }

  // ---- The propagation invariant ------------------------------------------

  /** The three lists hold gray containers, and no object is on two of them
      (or twice on one): all three use the single `gclist` link. */
  ghost predicate ListsGray(s: State) {
    match s case State(_, _, _, _, _, _) =>
    && s.mark.Keys == s.objs.Keys
    && (forall r :: r in s.gray || r in s.grayagain || r in s.weak ==>
         r in s.objs && IsGray(s, r) && Container(s.objs[r]))
    && (forall r <- s.weak :: s.objs[r].Table?)
    && Distinct(s.gray) && Distinct(s.grayagain) && Distinct(s.weak)
    && Disjoint(s.gray, s.grayagain) && Disjoint(s.gray, s.weak) && Disjoint(s.grayagain, s.weak)
  }

  lemma TailMembers(l: seq<Ref>)
    requires l != [] && Distinct(l)
    ensures Distinct(l[1..]) && l[0] !in l[1..]
    ensures forall x :: x in l <==> x == l[0] || x in l[1..]
  {
    assert l == [l[0]] + l[1..];
  }

  lemma PropagateGrayList(s: State, t: State)
    requires ListsGray(s) && Propagated(s, t)
    ensures Distinct(t.gray) && s.gray[0] !in t.gray
    ensures forall x <- t.gray :: IsGray(t, x) && x in s.objs && Container(s.objs[x])
    ensures forall x <- t.gray :: x in s.gray || IsWhite(s, x)
  {
    TailMembers(s.gray);
    assert Grown(s, t, s.gray[1..], t.gray);
  }

  lemma PropagateListsGray(s: State, t: State)
    requires ListsGray(s) && Propagated(s, t)
    ensures ListsGray(t)
  {
    PropagateGrayList(s, t);
    PropagateOtherLists(s, t);
    PropagateListed(s, t);
    hide Propagated, Distinct;
  }

  lemma PropagateOtherLists(s: State, t: State)
    requires ListsGray(s) && Propagated(s, t)
    ensures var o := s.gray[0];
            && (t.grayagain, t.weak) in {(s.grayagain, s.weak), ([o] + s.grayagain, s.weak), (s.grayagain, [o] + s.weak)}
            && o !in s.grayagain && o !in s.weak && t.mark.Keys == t.objs.Keys && t.objs == s.objs
            && Distinct(t.grayagain) && Distinct(t.weak)
            && ((o in t.grayagain || o in t.weak) ==> o in t.mark && t.mark[o].color.Gray?)
            && (o in t.weak ==> s.objs[o].Table?)
  {
    hide Around, Mode, Refs, StrongRefs;
    var o := s.gray[0];
    assert o in s.gray;
    AroundKeeps(s, t, o);
    DistinctMore(s.grayagain, o);
    DistinctMore(s.weak, o);
    hide Distinct;
  }

  lemma AroundKeeps(s: State, t: State, o: Ref)
    requires Around(s, t, o)
    ensures t.objs == s.objs && t.mark.Keys == s.mark.Keys == s.objs.Keys
    ensures forall r <- s.mark :: r != o && s.mark[r].color.Gray? ==> t.mark[r] == s.mark[r]
  {
    hide Grown, Handled;
  }

  lemma DistinctMore(l: seq<Ref>, o: Ref)
    requires Distinct(l) && o !in l
    ensures Distinct([o] + l)
  {}

  /** Objects that wait on other lists are still gray, and not on the first list. */
  lemma PropagateListed(s: State, t: State)
    requires ListsGray(s) && Propagated(s, t)
    ensures forall x :: (x in s.grayagain || x in s.weak) && x != s.gray[0] ==> x in t.objs && IsGray(t, x) && x !in t.gray
  {
    hide Around, Mode, Refs, StrongRefs, Distinct;
    var o := s.gray[0];
    AroundKeeps(s, t, o);
    PropagateGrayList(s, t);
  }

  /** Nothing more to do for the references of `r`: all of them are marked, or
      it is a weak table waiting to be cleared whose strong part is marked. */
  ghost predicate Done(s: State, r: Ref)
    requires r in s.objs
  {
    match s case State(_, _, _, _, _, _) =>
    || AllMarked(s, Refs(s, s.objs[r]))
    || (&& r in s.weak && s.objs[r].Table? && r in s.mark
        && (s.mark[r].keyWeak, s.mark[r].valueWeak) == Mode(s, s.objs[r].mt)
        && AllMarked(s, StrongRefs(s, s.objs[r])))
  }

  /** Every marked object is on the gray list, is put off (in `later`), or is
      done. */
  ghost predicate Scanned(s: State, later: set<Ref>)
    requires s.mark.Keys == s.objs.Keys
  {
    forall r <- s.mark :: IsWhite(s, r) || r in s.gray || r in later || Done(s, r)
  }

  lemma AroundMarked(s: State, t: State, o: Ref, vs: seq<Value>)
    requires Around(s, t, o) && AllMarked(s, vs) && !t.mark[o].color.White?
    ensures AllMarked(t, vs)
  {}

  lemma PropagateScanned(s: State, t: State, later: set<Ref>)
    requires ListsGray(s) && Propagated(s, t) && Scanned(s, later)
    ensures t.mark.Keys == t.objs.Keys && Scanned(t, later)
  {
    var o := s.gray[0];
    forall r <- t.mark | !IsWhite(t, r)
      ensures r in t.gray || r in later || Done(t, r)
    {
      RefsSame(s, t, s.objs[r]);
      if r == o {
      } else if IsWhite(s, r) {
        assert Handled(t, r);
      } else if r in s.gray {
        assert s.gray == [o] + s.gray[1..];
      } else if r !in later {
        DoneKept(s, t, r);
      }
    }
  }

  lemma DoneKept(s: State, t: State, r: Ref)
    requires Propagated(s, t) && r in s.mark && r != s.gray[0] && !IsWhite(s, r) && Done(s, r)
    ensures Done(t, r)
  {
    RefsSame(s, t, s.objs[r]);
    if AllMarked(s, Refs(s, s.objs[r])) {
      AroundMarked(s, t, s.gray[0], Refs(s, s.objs[r]));
    } else {
      AroundMarked(s, t, s.gray[0], StrongRefs(s, s.objs[r]));
      assert t.mark[r] == s.mark[r];
    }
  }

  /** `t` comes from `s` by traversals only. */
  ghost predicate After(s: State, t: State) {
    match t case State(_, _, _, _, _, _) =>
    && t == s.(mark := t.mark, gray := t.gray, grayagain := t.grayagain, weak := t.weak)
    && t.mark.Keys == s.mark.Keys
    && (forall r <- s.mark :: t.mark[r].fixed == s.mark[r].fixed)
    && (forall r <- s.mark :: !s.mark[r].color.White? ==> !t.mark[r].color.White?)
    && (forall r <- s.mark :: t.mark[r].color.White? ==> t.mark[r].color == s.mark[r].color)
    && (forall r <- s.mark :: t.mark[r].color == s.mark[r].color || (r in s.objs && ColorOk(s.objs[r], t.mark[r].color)))
    && (forall r <- s.grayagain :: r in t.grayagain)
    && (forall r <- s.weak :: r in t.weak)
  }

  lemma PropagateAfter(s: State, t: State)
    requires Propagated(s, t)
    ensures After(s, t)
  {
    hide Refs, StrongRefs, Mode;
    var o := s.gray[0];
    forall r <- s.mark | t.mark[r].color != s.mark[r].color
      ensures r in s.objs && ColorOk(s.objs[r], t.mark[r].color)
    {
      if r != o { HandledColor(t, r); }
    }
    hide ColorOk, Handled;
  }

  lemma HandledColor(t: State, r: Ref)
    requires r in t.objs && r in t.mark && Handled(t, r)
    ensures ColorOk(t.objs[r], t.mark[r].color) || t.objs[r].Open? || t.objs[r].Closed?
    ensures t.objs[r].Open? || t.objs[r].Closed? ==> ColorOk(t.objs[r], t.mark[r].color)
  {
    hide Refs;
  }

  lemma AfterTrans(s: State, t: State, u: State)
    requires After(s, t) && After(t, u)
    ensures After(s, u)
  {}

  /** `propagateall`: until the gray list is empty. */
  function PropagateAll(s: State): (t: State)
    requires ListsGray(s)
    ensures ListsGray(t) && t.gray == [] && After(s, t)
    decreases Whites(s), |s.gray|
  {
    if s.gray == [] then s else
      HeadReady(s);
      var s1 := PropagateMark(s);
      PropagateStep(s);
      var t := PropagateAll(s1);
      AfterTrans(s, s1, t);
      t
  }

  lemma HeadReady(s: State)
    requires ListsGray(s) && s.gray != []
    ensures Ready(s)
  {
    assert s.gray[0] in s.gray;
  }

  lemma PropagateStep(s: State)
    requires ListsGray(s) && Ready(s)
    ensures var t := PropagateMark(s);
            && Propagated(s, t) && ListsGray(t) && After(s, t)
            && (Whites(t) < Whites(s) || (Whites(t) == Whites(s) && |t.gray| < |s.gray|))
  {
    var t := PropagateMark(s);
    PropagateSpec(s);
    PropagateListsGray(s, t);
    PropagateAfter(s, t);
    PropagateDecreases(s, t);
  }

  lemma PropagateDecreases(s: State, t: State)
    requires Propagated(s, t)
    ensures Whites(t) < Whites(s) || (Whites(t) == Whites(s) && |t.gray| < |s.gray|)
  {
    assert Whites(t) <= Whites(s);
  }

  lemma {:induction false} PropagateAllScanned(s: State, later: set<Ref>)
    requires ListsGray(s) && Scanned(s, later)
    ensures Scanned(PropagateAll(s), later)
    decreases Whites(s), |s.gray|
  {
    if s.gray != [] {
      HeadReady(s);
      var s1 := PropagateMark(s);
      PropagateStep(s);
      PropagateScanned(s, s1, later);
      PropagateAllScanned(s1, later);
    }
  }
}
