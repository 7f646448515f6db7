/** What a running program does to the heap between two collector steps. */
module GcMutator {
  import opened GcHeap
  import opened GcMark
  import opened GcPropagate
  import opened GcAtomic
  import opened GcInvariant
  import opened GcBarrier
  import opened GcClose
  import opened GcStrings

  // ---- Reachability -------------------------------------------------------

  /** The roots: the threads, the registry, the metatables of the basic types,
      and whatever C code has in hand. */
  ghost predicate Root(s: State, r: Ref) {
    || r == s.g.main || r == s.g.running || Gc(r) == s.g.registry
    || Some(r) in s.g.mts || r in s.g.tmp
  }

  ghost predicate Path(s: State, p: seq<Ref>) {
    && p != [] && Root(s, p[0])
    && forall i :: 0 <= i < |p| - 1 ==> p[i] in s.objs && Gc(p[i + 1]) in Refs(s, s.objs[p[i]])
  }

  ghost predicate Reachable(s: State, r: Ref) {
    exists p :: Path(s, p) && p[|p| - 1] == r
  }

  ghost predicate Usable(s: State, v: Value) {
    v.Gc? ==> Reachable(s, v.ref)
  }

  lemma {:induction false} PathAlive(s: State, p: seq<Ref>)
    requires LiveHeap(s) && Path(s, p)
    ensures Alive(s, p[|p| - 1])
    decreases |p|
  {
    if |p| == 1 {
      if Some(p[0]) in s.g.mts { assert Some(p[0]).Some?; }
    } else {
      var q := p[..|p| - 1];
      assert Path(s, q) by {
        forall i | 0 <= i < |q| - 1 ensures q[i] in s.objs && Gc(q[i + 1]) in Refs(s, s.objs[q[i]]) {
          assert q[i] == p[i] && q[i + 1] == p[i + 1];
        }
      }
      PathAlive(s, q);
      var r := q[|q| - 1];
      hide Refs;
      assert p[|p| - 2] == r && p[|p| - 1] == p[|p| - 2 + 1];
      assert AllAlive(s, Refs(s, s.objs[r]));
      assert Gc(p[|p| - 1]) in Refs(s, s.objs[r]);
      assert AliveValue(s, Gc(p[|p| - 1]));
    }
  }

  /** Everything a program can get at exists and is not about to be freed. */
  lemma ReachableAlive(s: State, r: Ref)
    requires LiveHeap(s) && Reachable(s, r)
    ensures Alive(s, r)
  {
    var p :| Path(s, p) && p[|p| - 1] == r;
    PathAlive(s, p);
  }

  lemma UsableAlive(s: State, v: Value)
    requires LiveHeap(s) && Usable(s, v)
    ensures AliveValue(s, v)
  {
    if v.Gc? { ReachableAlive(s, v.ref); }
  }

  // ---- Frames -------------------------------------------------------------

  lemma RefsSameKinds(s: State, t: State, o: Obj)
    requires SameKinds(s, t)
    ensures Refs(t, o) == Refs(s, o)
    ensures o.Table? && Mode(t, o.mt) == Mode(s, o.mt) ==> StrongRefs(t, o) == StrongRefs(s, o)
  {
    hide Contents;
  }

  /** What `LiveHeap` needs to survive a change. */
  lemma LiveTransfer(s: State, t: State)
    requires LiveHeap(s) && RootsAlive(t)
    requires forall r :: Alive(s, r) ==> Alive(t, r)
    requires forall r <- t.objs :: IsDead(t, r) || AllAlive(t, Refs(t, t.objs[r])) ||
               (r in s.objs && !IsDead(s, r) && forall v <- Refs(t, t.objs[r]) :: v in Refs(s, s.objs[r]) || AliveValue(t, v))
    ensures LiveHeap(t)
  {
    forall r <- t.objs | !IsDead(t, r) ensures AllAlive(t, Refs(t, t.objs[r])) {
      hide Refs;
    }
  }

  // ---- New objects --------------------------------------------------------

  /** `luaC_link`. */
  function NewObject(s: State, r: Ref, o: Obj): State {
    var t := LinkRoot(s.(objs := s.objs[r := o], mark := s.mark[r := FreshMark(s)]), r);
    t.(g := t.g.(tmp := t.g.tmp + {r}))
  }

  function InsertAfter(l: seq<Ref>, x: Ref, r: Ref): (m: seq<Ref>)
    ensures forall y :: y in m <==> y in l || (x in l && y == r)
    ensures Distinct(l) && r !in l ==> Distinct(m)
  {
    if l == [] then [] else
      assert l == [l[0]] + l[1..];
      assert Distinct(l) ==> Distinct(l[1..]) && l[0] !in l[1..];
      if l[0] == x then [x, r] + l[1..]
      else
        var rest := InsertAfter(l[1..], x, r);
        assert l[0] !in l[1..] && l[0] != r ==> l[0] !in rest;
        [l[0]] + rest
  }

  /** `luaS_newudata`: userdata are linked after the main thread. */
  function NewUdata(s: State, r: Ref, meta: Option<Ref>, env: Ref): State {
    var sw, re := s.g.swept, s.g.rest;
    var lists :=
      if sw != [] && sw[|sw| - 1] == s.g.main then (sw, [r] + re)
      else (InsertAfter(sw, s.g.main, r), InsertAfter(re, s.g.main, r));
    s.(objs := s.objs[r := Udata(meta, env)], mark := s.mark[r := FreshMark(s)],
       g := s.g.(swept := lists.0, rest := lists.1, tmp := s.g.tmp + {r}))
  }

  /** A new object has been put somewhere on `rootgc`. */
  ghost predicate Added(s: State, t: State, r: Ref, o: Obj) {
    match t case State(_, _, _, _, _, _) =>
    && r !in s.objs && Rooted(o) && (o.Thread? ==> o.open == [])
    && t == s.(objs := s.objs[r := o], mark := s.mark[r := FreshMark(s)],
               g := s.g.(swept := t.g.swept, rest := t.g.rest, tmp := s.g.tmp + {r}))
    && (forall x :: x in t.g.swept || x in t.g.rest <==> x in s.g.swept || x in s.g.rest || x == r)
    && (forall x <- t.g.swept :: x in s.g.swept || x == r)
    && (s.g.swept == [] ==> t.g.swept == [])
    && (Distinct(s.g.swept) && Distinct(s.g.rest) && Disjoint(s.g.swept, s.g.rest) && r !in s.g.swept && r !in s.g.rest ==>
         Distinct(t.g.swept) && Distinct(t.g.rest) && Disjoint(t.g.swept, t.g.rest))
  }

  lemma NewObjectAdded(s: State, r: Ref, o: Obj)
    requires r !in s.objs && Rooted(o) && (o.Thread? ==> o.open == [])
    ensures Added(s, NewObject(s, r, o), r, o)
  {
    var t := NewObject(s, r, o);
    assert forall x :: x in [r] + s.g.rest <==> x == r || x in s.g.rest;
    assert forall x :: x in [r] + s.g.swept <==> x == r || x in s.g.swept;
    if Distinct(s.g.swept) && Distinct(s.g.rest) && Disjoint(s.g.swept, s.g.rest) && r !in s.g.swept && r !in s.g.rest {
      ConsDistinct(r, s.g.swept);
      ConsDistinct(r, s.g.rest);
      hide Distinct;
      assert Disjoint(t.g.swept, t.g.rest);
    }
    hide Distinct, Disjoint;
  }

  lemma ConsDistinct(r: Ref, l: seq<Ref>)
    requires Distinct(l) && r !in l
    ensures Distinct([r] + l)
  {}

  lemma NewUdataAdded(s: State, r: Ref, meta: Option<Ref>, env: Ref)
    requires r !in s.objs && (s.g.main in s.g.swept || s.g.main in s.g.rest)
    requires Disjoint(s.g.swept, s.g.rest)
    ensures Added(s, NewUdata(s, r, meta, env), r, Udata(meta, env))
  {
    var t := NewUdata(s, r, meta, env);
    assert forall x :: x in [r] + s.g.rest <==> x == r || x in s.g.rest;
    var sw := s.g.swept;
    if sw != [] && sw[|sw| - 1] == s.g.main { assert s.g.main in sw; }
    assert Distinct(s.g.rest) && r !in s.g.rest ==> Distinct([r] + s.g.rest);
  }

  lemma AddedInv(s: State, t: State, r: Ref, o: Obj)
    requires Inv(s) && Added(s, t, r, o)
    requires forall v <- Refs(s, o) :: AliveValue(s, v)
    ensures Inv(t)
  {
    hide RootListBut, OpenLists, StringTable, LiveHeap, Colors;
    Aspects(s, {});
    ColorsKeys(s);
    AddedLists(s, t, r, o);
    AddedLive(s, t, r, o);
    AddedPhase(s, t, r, o);
  }

  lemma AddedLists(s: State, t: State, r: Ref, o: Obj)
    requires Structure(s) && Colors(s) && Added(s, t, r, o)
    ensures Structure(t) && Colors(t)
  {
    hide StringTable, OpenLists;
    AddedRootList(s, t, r, o);
    AddedOpenLists(s, t, r, o);
    AddedColors(s, t, r, o);
    hide RootListBut, Colors;
    assert SameStrings(s, t);
    StringTableSame(s, t);
  }

  lemma AddedColors(s: State, t: State, r: Ref, o: Obj)
    requires Colors(s) && Added(s, t, r, o)
    ensures Colors(t)
  {
    hide Distinct, Disjoint;
  }

  lemma AddedRootList(s: State, t: State, r: Ref, o: Obj)
    requires RootListBut(s, {}) && Added(s, t, r, o)
    ensures RootListBut(t, {})
  {}

  lemma AddedOpenLists(s: State, t: State, r: Ref, o: Obj)
    requires OpenLists(s) && Added(s, t, r, o)
    ensures OpenLists(t)
  {
    forall th <- t.objs | t.objs[th].Thread? ensures OpenList(t, th) {
      if th != r {
        assert OpenList(s, th);
        forall u <- s.objs[th].open ensures u in s.objs {
          var i :| 0 <= i < |s.objs[th].open| && s.objs[th].open[i] == u;
        }
        OpenListSame(s, t, th);
      }
    }
  }

  lemma AddedRefs(s: State, t: State, r: Ref, o: Obj, x: Ref)
    requires Added(s, t, r, o) && OpenLists(s) && x in t.objs && x != r
    ensures x in s.objs && Refs(t, t.objs[x]) == Refs(s, s.objs[x])
  {
    hide Contents;
  }

  lemma AddedLive(s: State, t: State, r: Ref, o: Obj)
    requires LiveHeap(s) && OpenLists(s) && Added(s, t, r, o) && s.mark.Keys == s.objs.Keys
    requires forall v <- Refs(s, o) :: AliveValue(s, v)
    ensures LiveHeap(t)
  {
    forall x ensures Alive(s, x) ==> Alive(t, x) {}
    forall x <- t.objs | !IsDead(t, x)
      ensures AllAlive(t, Refs(t, t.objs[x])) ||
              (x in s.objs && !IsDead(s, x) && forall v <- Refs(t, t.objs[x]) :: v in Refs(s, s.objs[x]) || AliveValue(t, v))
    {
      if x == r { RefsNew(s, t, r, o); } else { AddedRefs(s, t, r, o, x); }
    }
    hide Refs;
    LiveTransfer(s, t);
  }

  lemma RefsNew(s: State, t: State, r: Ref, o: Obj)
    requires Added(s, t, r, o)
    ensures Refs(t, o) == Refs(s, o)
  {
    hide Contents;
  }

  lemma AddedPhase(s: State, t: State, r: Ref, o: Obj)
    requires Inv(s) && Added(s, t, r, o)
    ensures PhaseInv(t)
  {
    hide StringTable, RootListBut, OpenLists, LiveHeap;
    Aspects(s, {});
    if s.g.phase == Propagate {
      AddedTriColor(s, t, r, o);
    } else {
      hide OpenLists;
      AddedWhite(s, t, r, o);
    }
  }

  lemma AddedWhite(s: State, t: State, r: Ref, o: Obj)
    requires Colors(s) && OpenLists(s) && Added(s, t, r, o) && PhaseInv(s) && s.g.phase != Propagate
    ensures PhaseInv(t)
  {
    forall x | CurWhite(s, x) ensures CurWhite(t, x) {}
    assert CurWhite(t, r);
    hide OpenList;
    if s.g.phase == Sweep {
      forall u <- t.objs | t.objs[u].Open? && t.objs[u].thread in t.g.swept ensures CurWhite(t, u) {
        assert u in s.objs && t.objs[u] == s.objs[u];
        assert s.objs[u].thread != r;
      }
    }
  }

  lemma AddedTriColor(s: State, t: State, r: Ref, o: Obj)
    requires Added(s, t, r, o) && NoDead(s) && TriColor(s) && OpenLists(s) && LiveHeap(s)
    ensures NoDead(t) && TriColor(t)
  {
    hide Refs, ListsGray, GrayListed, Scanned, OpenLists;
    AddedGrayLists(s, t, r, o);
    AddedScanned(s, t, r, o);
  }

  lemma AddedGrayLists(s: State, t: State, r: Ref, o: Obj)
    requires Added(s, t, r, o) && ListsGray(s) && GrayListed(s)
    ensures ListsGray(t) && GrayListed(t)
  {
    hide Distinct, Disjoint;
    assert forall x :: x in s.gray || x in s.grayagain || x in s.weak ==> x != r;
  }

  lemma AddedScanned(s: State, t: State, r: Ref, o: Obj)
    requires Added(s, t, r, o) && NoDead(s) && OpenLists(s) && LiveHeap(s)
    requires s.mark.Keys == s.objs.Keys && Scanned(s, Later(s))
    ensures t.mark.Keys == t.objs.Keys && Scanned(t, Later(t))
  {
    hide Refs, OpenLists, Done;
    forall x <- t.mark | !IsWhite(t, x)
      ensures x in t.gray || x in Later(t) || Done(t, x)
    {
      if x !in s.gray && x !in Later(s) {
        AddedDone(s, t, r, o, x);
      }
    }
  }

  lemma AddedDone(s: State, t: State, r: Ref, o: Obj, x: Ref)
    requires Added(s, t, r, o) && OpenLists(s) && x in s.mark && s.mark.Keys == s.objs.Keys && Done(s, x)
    requires AllAlive(s, Refs(s, s.objs[x])) && x !in s.weak
    ensures Done(t, x)
  {
    AddedRefs(s, t, r, o, x);
  }
}
