/** Write barriers, linking of new objects, and closing of upvalues. */
module GcBarrier {
  import opened GcHeap
  import opened GcMark
  import opened GcPropagate
  import opened GcAtomic
  import opened GcInvariant

  // ---- Barriers -----------------------------------------------------------

  function Whiten(s: State, r: Ref): State
    requires r in s.mark
  {
    SetColor(s, r, White(s.g.cur))
  }

  /** `luaC_barrier`: storing `v` in the non-table `o`.  While marking, the
      value is marked; while sweeping, the object is whitened ahead of time. */
  function BarrierForward(s: State, o: Ref, v: Value): State
    requires s.mark.Keys == s.objs.Keys
  {
    if v.Gc? && IsWhite(s, v.ref) && IsBlack(s, o) then
      if s.g.phase == Propagate then ReallyMark(s, v.ref) else Whiten(s, o)
    else s
  }

  /** `luaC_barriert`: storing `v` in table `t` makes it gray again. */
  function BarrierBack(s: State, t: Ref, v: Value): State {
    if v.Gc? && IsWhite(s, v.ref) && IsBlack(s, t) then
      SetColor(s, t, Gray).(grayagain := [t] + s.grayagain)
    else s
  }

  // ---- Lists --------------------------------------------------------------

  function Without(l: seq<Ref>, r: Ref): (m: seq<Ref>)
    ensures forall x :: x in m <==> x in l && x != r
    ensures Distinct(l) ==> Distinct(m)
  {
    if l == [] then [] else
      var rest := Without(l[1..], r);
      assert l == [l[0]] + l[1..];
      assert Distinct(l) ==> Distinct(l[1..]) && l[0] !in l[1..];
      assert l[0] !in l[1..] && Distinct(rest) ==> Distinct([l[0]] + rest);
      if l[0] == r then rest else [l[0]] + rest
  }

  /** New objects go to the front of `rootgc`. */
  function LinkRoot(s: State, r: Ref): State {
    if s.g.swept == [] then s.(g := s.g.(rest := [r] + s.g.rest))
    else s.(g := s.g.(swept := [r] + s.g.swept))
  }

  /** Freeing anything but a thread. */
  function FreeLeaf(s: State, r: Ref): State
    requires r in s.objs
  {
    s.(objs := s.objs - {r}, mark := s.mark - {r},
       g := if s.objs[r].Str? then s.g.(nuse := s.g.nuse - 1)
            else if s.objs[r].Open? then s.g.(uvhead := Without(s.g.uvhead, r))
            else s.g)
  }

  // ---- Closing upvalues ---------------------------------------------------

  /** `luaC_linkupval`: a closed upvalue joins `rootgc`, with a barrier if it is
      already marked. */
  function LinkUpval(s: State, u: Ref): State
    requires s.mark.Keys == s.objs.Keys && u in s.objs
  {
    var s1 := LinkRoot(s, u);
    if !IsGray(s1, u) then s1
    else if s1.g.phase == Propagate then
      BarrierForward(SetColor(s1, u, Black), u, UpvalValue(s1, s1.objs[u]))
    else Whiten(s1, u)
  }

  ghost predicate Closable(s: State, th: Ref) {
    match s case State(_, _, _, _, _, _) =>
    && s.mark.Keys == s.objs.Keys
    && th in s.objs && s.objs[th].Thread? && OpenLists(s)
  }

  /** One round of the loop of `luaF_close`: the newest open upvalue is freed if
      dead, otherwise takes its value out of the stack. */
  function CloseOne(s: State, th: Ref): State
    requires Closable(s, th) && s.objs[th].open != []
  {
    var u := s.objs[th].open[0];
    var s1 := s.(objs := s.objs[th := s.objs[th].(open := s.objs[th].open[1..])]);
    assert OpenList(s, th);
    if IsDead(s, u) then FreeLeaf(s1, u)
    else
      LinkUpval(s1.(objs := s1.objs[u := Closed(UpvalValue(s, s.objs[u]))],
                    g := s1.g.(uvhead := Without(s1.g.uvhead, u))), u)
  }

  /** The objects after one round: the thread has one open upvalue less, the
      upvalue is gone or closed with the same value. */
  ghost predicate ClosedOne(s: State, t: State, th: Ref) {
    match t case State(_, _, _, _, _, _) =>
    && Closable(s, th) && s.objs[th].open != []
    && var l := s.objs[th].open;
    && var u := l[0];
    && u in s.objs && s.objs[u].Open?
    && t.mark.Keys == t.objs.Keys
    && t.objs == (if IsDead(s, u) then s.objs - {u} else s.objs[u := Closed(UpvalValue(s, s.objs[u]))])
                 [th := s.objs[th].(open := l[1..])]
    && t.g == s.g.(swept := t.g.swept, rest := t.g.rest, uvhead := Without(s.g.uvhead, u))
    && (if IsDead(s, u) then t.g.swept == s.g.swept && t.g.rest == s.g.rest
        else if s.g.swept == [] then t.g.swept == [] && t.g.rest == [u] + s.g.rest
        else t.g.swept == [u] + s.g.swept && t.g.rest == s.g.rest)
  }

  lemma CloseOneObjs(s: State, th: Ref)
    requires Closable(s, th) && s.objs[th].open != []
    ensures ClosedOne(s, CloseOne(s, th), th)
  {
    assert OpenList(s, th);
    hide Refs;
    var u := s.objs[th].open[0];
    var s1 := s.(objs := s.objs[th := s.objs[th].(open := s.objs[th].open[1..])]);
    if !IsDead(s, u) {
      var s2 := s1.(objs := s1.objs[u := Closed(UpvalValue(s, s.objs[u]))], g := s1.g.(uvhead := Without(s1.g.uvhead, u)));
      LinkUpvalObjs(s2, u);
      assert s2.objs == s.objs[u := Closed(UpvalValue(s, s.objs[u]))][th := s.objs[th].(open := s.objs[th].open[1..])];
    } else {
      assert s1.objs - {u} == (s.objs - {u})[th := s.objs[th].(open := s.objs[th].open[1..])];
    }
  }

  lemma LinkUpvalObjs(s: State, u: Ref)
    requires s.mark.Keys == s.objs.Keys && u in s.objs
    ensures LinkUpval(s, u).objs == s.objs && LinkUpval(s, u).mark.Keys == s.objs.Keys
    ensures LinkUpval(s, u).g == LinkRoot(s, u).g
  {
    var s1 := LinkRoot(s, u);
    if IsGray(s1, u) && s1.g.phase == Propagate {
      var s2 := SetColor(s1, u, Black);
      var v := UpvalValue(s1, s1.objs[u]);
      if v.Gc? && IsWhite(s2, v.ref) { ExtendsFrame(s2, ReallyMark(s2, v.ref)); }
    }
  }

  lemma CloseOneOpenList(s: State, t: State, th: Ref, x: Ref)
    requires ClosedOne(s, t, th) && x in s.objs && s.objs[x].Thread?
    ensures x in t.objs && t.objs[x].Thread? && OpenList(t, x)
  {
    hide UpvalValue;
    var l := s.objs[th].open;
    assert OpenList(s, th) && OpenList(s, x);
    if x == th {
      CloseOneOwnList(s, t, th);
    } else {
      forall u <- s.objs[x].open ensures s.objs[u].thread == x {
        var i :| 0 <= i < |s.objs[x].open| && s.objs[x].open[i] == u;
      }
      OpenListSame(s, t, x);
    }
  }

  lemma CloseOneOwnList(s: State, t: State, th: Ref)
    requires ClosedOne(s, t, th)
    ensures th in t.objs && t.objs[th].Thread? && OpenList(t, th)
  {
    hide UpvalValue, OpenLists;
    var l := s.objs[th].open;
    assert OpenList(s, th) by { CloseOneOpen(s, t, th); }
    forall i | 0 < i < |l| ensures l[i] != l[0] {}
    assert forall i :: 0 <= i < |l| - 1 ==> t.objs[th].open[i] == l[i + 1];
  }

  lemma CloseOneOpen(s: State, t: State, th: Ref)
    requires ClosedOne(s, t, th)
    ensures OpenList(s, th)
  {}

  lemma CloseOneClosable(s: State, t: State, th: Ref)
    requires ClosedOne(s, t, th)
    ensures Closable(t, th) && |t.objs[th].open| < |s.objs[th].open|
  {
    hide UpvalValue, OpenList, Without;
    var l := s.objs[th].open;
    assert l == [l[0]] + l[1..];
    forall x <- t.objs | t.objs[x].Thread? ensures OpenList(t, x) {
      CloseOneOpenList(s, t, th, x);
    }
    assert OpenLists(t);
  }

  function CloseUpvals(s: State, th: Ref, level: nat): (t: State)
    requires Closable(s, th)
    ensures Closable(t, th)
    decreases |s.objs[th].open|
  {
    assert OpenList(s, th);
    if s.objs[th].open == [] || s.objs[s.objs[th].open[0]].level < level then s
    else
      CloseOneObjs(s, th);
      CloseOneClosable(s, CloseOne(s, th), th);
      CloseUpvals(CloseOne(s, th), th, level)
  }
}
