/** The sweep: `sweeplist` over string chains, over open upvalues and over
    `rootgc`. */
module GcSweep {
  import opened GcHeap
  import opened GcMark
  import opened GcPropagate
  import opened GcAtomic
  import opened GcInvariant
  import opened GcBarrier
  import opened GcClose

  /** The test of `sweeplist`: dead means the other white and not fixed. */
  predicate Survives(s: State, r: Ref) {
    r in s.mark && (s.mark[r].color != White(!s.g.cur) || s.mark[r].fixed)
  }

  /** A chain of strings or of open upvalues. */
  ghost predicate Chain(s: State, l: seq<Ref>) {
    && s.mark.Keys == s.objs.Keys
    && Distinct(l)
    && forall r <- l :: r in s.objs && (s.objs[r].Str? || s.objs[r].Open?)
  }

  function Kept(s: State, l: seq<Ref>): (k: seq<Ref>)
    ensures forall r :: r in k <==> r in l && Survives(s, r)
    ensures Distinct(l) ==> Distinct(k)
  {
    if l == [] then [] else
      var rest := Kept(s, l[1..]);
      assert l == [l[0]] + l[1..];
      assert Distinct(l) ==> Distinct(l[1..]) && l[0] !in l[1..];
      assert l[0] !in l[1..] && Distinct(rest) ==> Distinct([l[0]] + rest);
      if Survives(s, l[0]) then [l[0]] + rest else rest
  }

  function SweepOneLeaf(s: State, r: Ref): State
    requires r in s.objs && r in s.mark
  {
    if Survives(s, r) then Whiten(s, r) else FreeLeaf(s, r)
  }

  /** `sweepwholelist` over a chain; the list that stays linked is `Kept`. */
  function SweepChain(s: State, l: seq<Ref>): State
    requires Chain(s, l)
    decreases |l|
  {
    if l == [] then s else
      SweepLeafChain(s, l);
      SweepChain(SweepOneLeaf(s, l[0]), l[1..])
  }

  lemma SweepLeafChain(s: State, l: seq<Ref>)
    requires Chain(s, l) && l != []
    ensures Chain(SweepOneLeaf(s, l[0]), l[1..])
  {
    TailMembers(l);
  }

  /** What the sweep of the objects in `l` does. */
  ghost predicate Swept(s: State, t: State, l: set<Ref>) {
    match t case State(_, _, _, _, _, _) =>
    && s.mark.Keys == s.objs.Keys && t.mark.Keys == t.objs.Keys
    && t == s.(objs := t.objs, mark := t.mark, g := s.g.(nuse := t.g.nuse, uvhead := t.g.uvhead))
    && (forall r :: r in t.objs <==> r in s.objs && (r in l ==> Survives(s, r)))
    && (forall r <- t.objs :: t.objs[r] == s.objs[r])
    && (forall r <- t.objs :: t.mark[r] == if r in l then s.mark[r].(color := White(s.g.cur)) else s.mark[r])
    && (forall u :: u in t.g.uvhead <==> u in s.g.uvhead && (u in s.objs && s.objs[u].Open? ==> u in t.objs))
    && (Distinct(s.g.uvhead) ==> Distinct(t.g.uvhead))
    && t.g.nuse - |Strings(t)| == s.g.nuse - |Strings(s)|
  }

  lemma SweptLeaf(s: State, r: Ref)
    requires s.mark.Keys == s.objs.Keys && r in s.objs && (s.objs[r].Str? || s.objs[r].Open?)
    ensures Swept(s, SweepOneLeaf(s, r), {r})
  {
    var t := SweepOneLeaf(s, r);
    if !Survives(s, r) {
      assert Strings(t) == Strings(s) - {r};
      if s.objs[r].Str? { assert r in Strings(s); }
    } else {
      assert Strings(t) == Strings(s);
    }
  }

  lemma SweptTrans(s: State, t: State, u: State, a: set<Ref>, b: set<Ref>)
    requires Swept(s, t, a) && Swept(t, u, b) && a !! b
    ensures Swept(s, u, a + b)
  {
    hide Strings;
  }

  lemma {:induction false} SweepChainSpec(s: State, l: seq<Ref>)
    requires Chain(s, l)
    ensures Swept(s, SweepChain(s, l), Elements(l))
    decreases |l|
  {
    if l == [] {
      assert Elements(l) == {};
    } else {
      var t := SweepOneLeaf(s, l[0]);
      SweptLeaf(s, l[0]);
      SweepLeafChain(s, l);
      SweepChainSpec(t, l[1..]);
      TailMembers(l);
      hide Swept, SweepOneLeaf, Distinct;
      SweptTrans(s, t, SweepChain(t, l[1..]), {l[0]}, Elements(l[1..]));
      assert Elements(l) == {l[0]} + Elements(l[1..]);
    }
  }

  // ---- Strings ------------------------------------------------------------

  /** One step of the string sweep: the next bucket. */
  function SweepBucket(s: State): State
    requires s.g.sweepstr < |s.g.strt| && Chain(s, s.g.strt[s.g.sweepstr])
  {
    var b := s.g.sweepstr;
    var t := SweepChain(s, s.g.strt[b]);
    t.(g := t.g.(strt := s.g.strt[b := Kept(s, s.g.strt[b])], sweepstr := b + 1,
                 phase := if b + 1 >= |s.g.strt| then Sweep else t.g.phase))
  }

  // ---- The rest of the heap -----------------------------------------------

  /** Sweeping a thread first sweeps its open upvalues. */
  function SweepOpen(s: State, th: Ref): State
    requires th in s.objs && s.objs[th].Thread? && Chain(s, s.objs[th].open)
  {
    var t := SweepChain(s, s.objs[th].open);
    t.(objs := t.objs[th := s.objs[th].(open := Kept(s, s.objs[th].open))])
  }

  /** `freeobj`: a thread closes its upvalues before it goes. */
  function FreeObj(s: State, r: Ref): State
    requires r in s.objs && (s.objs[r].Thread? ==> Closable(s, r))
  {
    if s.objs[r].Thread? then FreeLeaf(CloseUpvals(s, r, 0), r) else FreeLeaf(s, r)
  }

  ghost predicate Sweepable(s: State) {
    match s case State(_, _, _, _, _, _) =>
    && s.mark.Keys == s.objs.Keys && OpenLists(s)
    && forall r <- s.g.rest :: r in s.objs && Rooted(s.objs[r])
  }

  lemma OpenChain(s: State, th: Ref)
    requires s.mark.Keys == s.objs.Keys && th in s.objs && s.objs[th].Thread? && OpenList(s, th)
    ensures Chain(s, s.objs[th].open)
  {
    var l := s.objs[th].open;
    forall u <- l ensures u in s.objs && s.objs[u].Open? {
      var i :| 0 <= i < |l| && l[i] == u;
    }
  }

  ghost predicate Descending(s: State, l: seq<Ref>) {
    && (forall r <- l :: r in s.objs && s.objs[r].Open?)
    && forall i, j :: 0 <= i < j < |l| ==> s.objs[l[i]].level > s.objs[l[j]].level
  }

  /** Sweeping keeps the order of the open list. */
  lemma {:induction false} KeptOrder(s: State, l: seq<Ref>)
    requires Descending(s, l)
    ensures Descending(s, Kept(s, l))
  {
    if l != [] {
      var rest := l[1..];
      assert l == [l[0]] + rest;
      assert Descending(s, rest);
      KeptOrder(s, rest);
      var k := Kept(s, rest);
      forall r <- k ensures s.objs[l[0]].level > s.objs[r].level {
        var j :| 0 <= j < |rest| && rest[j] == r;
        assert l[j + 1] == r;
      }
    }
  }

  lemma SweepOpenLists(s: State, th: Ref)
    requires s.mark.Keys == s.objs.Keys && OpenLists(s) && th in s.objs && s.objs[th].Thread?
    requires Chain(s, s.objs[th].open)
    ensures OpenLists(SweepOpen(s, th))
  {
    hide Strings, Kept, Chain, SweepChain;
    var l := s.objs[th].open;
    SweepChainSpec(s, l);
    var t := SweepOpen(s, th);
    assert OpenList(s, th);
    assert Descending(s, l) by { OpenChain(s, th); }
    KeptOrder(s, l);
    hide Descending;
    forall x <- t.objs | t.objs[x].Thread? ensures OpenList(t, x) {
      assert OpenList(s, x);
      SweepOpenList(s, SweepChain(s, l), t, th, x);
      hide Swept;
    }
    hide OpenList;
    forall u <- t.objs | t.objs[u].Open?
      ensures var y := t.objs[u].thread; y in t.objs && t.objs[y].Thread? && u in t.objs[y].open
    {
      SweepOpenIn(s, SweepChain(s, l), t, th, u);
      hide Swept;
    }
  }

  /** An open upvalue that is left is on the list of its thread. */
  lemma SweepOpenIn(s: State, m: State, t: State, th: Ref, u: Ref)
    requires OpenLists(s) && th in s.objs && s.objs[th].Thread? && Chain(s, s.objs[th].open)
    requires Swept(s, m, Elements(s.objs[th].open))
    requires t == m.(objs := m.objs[th := s.objs[th].(open := Kept(s, s.objs[th].open))])
    requires u in t.objs && t.objs[u].Open?
    ensures var y := t.objs[u].thread; y in t.objs && t.objs[y].Thread? && u in t.objs[y].open
  {
    hide Strings, OpenList, Distinct;
    var y := s.objs[u].thread;
    assert y !in Elements(s.objs[th].open);
  }

  lemma SweepOwnList(s: State, m: State, t: State, th: Ref)
    requires th in s.objs && s.objs[th].Thread? && OpenList(s, th)
    requires Swept(s, m, Elements(s.objs[th].open))
    requires t == m.(objs := m.objs[th := s.objs[th].(open := Kept(s, s.objs[th].open))])
    requires Descending(s, Kept(s, s.objs[th].open))
    ensures OpenList(t, th)
  {
    hide Kept;
    var l, k := s.objs[th].open, Kept(s, s.objs[th].open);
    forall u <- k ensures u != th && u in m.objs && t.objs[u] == s.objs[u]
                          && s.objs[u].thread == th && s.objs[u].level < |s.objs[th].stack|
    {
      assert u in l && Survives(s, u);
      var i :| 0 <= i < |l| && l[i] == u;
    }
    hide Swept;
    assert t.objs[th].open == k && t.objs[th].stack == s.objs[th].stack;
  }

  lemma SweepOpenList(s: State, m: State, t: State, th: Ref, x: Ref)
    requires OpenLists(s) && th in s.objs && s.objs[th].Thread?
    requires x in s.objs && s.objs[x].Thread? && OpenList(s, x) && OpenList(s, th)
    requires Swept(s, m, Elements(s.objs[th].open))
    requires t == m.(objs := m.objs[th := s.objs[th].(open := Kept(s, s.objs[th].open))])
    requires Descending(s, Kept(s, s.objs[th].open))
    ensures x in t.objs && t.objs[x].Thread? && OpenList(t, x)
  {
    hide Strings, Kept, Descending;
    if x == th {
      SweepOwnList(s, m, t, th);
    } else {
      var l, lt := s.objs[x].open, s.objs[th].open;
      forall u | u in lt ensures s.objs[u].Open? && s.objs[u].thread == th {
        var i :| 0 <= i < |lt| && lt[i] == u;
      }
      forall u <- l ensures u in m.objs && u != th {
        var i :| 0 <= i < |l| && l[i] == u;
        assert u !in Elements(lt);
      }
      OpenListSame(s, t, x);
    }
  }

  lemma SweepOpenSweepable(s: State, th: Ref)
    requires Sweepable(s) && th in s.objs && s.objs[th].Thread? && Chain(s, s.objs[th].open)
    ensures Sweepable(SweepOpen(s, th)) && SweepOpen(s, th).g.rest == s.g.rest
  {
    var l := s.objs[th].open;
    SweepChainSpec(s, l);
    SweepOpenLists(s, th);
    hide OpenLists, Strings, Kept, SweepChain, Distinct, Swept, Chain, Elements;
    var m := SweepChain(s, l);
    SweptLinks(s, m, Elements(l));
    SweptThread(s, m, l, th);
    forall r <- s.g.rest ensures r in m.objs && m.objs[r] == s.objs[r] {
      SweptUnlisted(s, m, l, r);
    }
    hide Sweepable;
    OpenSweepable(s, m, SweepOpen(s, th), th, Kept(s, l));
  }

  lemma OpenSweepable(s: State, m: State, t: State, th: Ref, l: seq<Ref>)
    requires Sweepable(s) && th in s.objs && s.objs[th].Thread? && th in m.objs && m.mark.Keys == m.objs.Keys && m.g.rest == s.g.rest
    requires t == m.(objs := m.objs[th := s.objs[th].(open := l)]) && OpenLists(t)
    requires forall r <- s.g.rest :: r in m.objs && m.objs[r] == s.objs[r]
    ensures Sweepable(t)
  {
    hide OpenLists;
  }

  lemma SweptThread(s: State, t: State, l: seq<Ref>, th: Ref)
    requires Swept(s, t, Elements(l)) && Chain(s, l) && th in s.objs && s.objs[th].Thread?
    ensures th in t.objs
  {
    hide Strings, Distinct;
    assert th !in Elements(l);
  }

  /** An object that is not in the chain is left alone. */
  lemma SweptUnlisted(s: State, t: State, l: seq<Ref>, r: Ref)
    requires Swept(s, t, Elements(l)) && Chain(s, l) && r in s.objs && Rooted(s.objs[r])
    ensures r in t.objs && t.objs[r] == s.objs[r]
  {
    hide Strings, Distinct;
    assert r !in Elements(l);
  }

  lemma SweptLinks(s: State, t: State, l: set<Ref>)
    requires Swept(s, t, l)
    ensures t.mark.Keys == t.objs.Keys && t.g.rest == s.g.rest
  {
    hide Strings;
  }

  /** One round of `sweeplist` over `rootgc`. */
  function SweepRootOne(s: State): State
    requires Sweepable(s) && s.g.rest != []
  {
    var r := s.g.rest[0];
    assert r in s.g.rest;
    if s.objs[r].Thread? then
      assert OpenList(s, r);
      OpenChain(s, r);
      var s1 := SweepOpen(s, r);
      SweepOpenSweepable(s, r);
      SweepRootHead(s1)
    else SweepRootHead(s)
  }

  function SweepRootHead(s: State): State
    requires Sweepable(s) && s.g.rest != []
  {
    var r := s.g.rest[0];
    assert r in s.g.rest;
    var s1 := s.(g := s.g.(rest := s.g.rest[1..]));
    if Survives(s, r) then
      Whiten(s1, r).(g := s1.g.(swept := s.g.swept + [r]))
    else
      assert OpenLists(s1) by { OpenListsFrame(s, s1); }
      FreeObj(s1, r)
  }

  lemma OpenListsFrame(s: State, t: State)
    requires OpenLists(s) && t.objs == s.objs && t.g.uvhead == s.g.uvhead
    ensures OpenLists(t)
  {
    assert SameKinds(s, t);
    OpenListsSame(s, t);
  }

  // ---- Sweeping a chain keeps the invariant -------------------------------

  ghost predicate FixedOk(s: State) {
    match s case State(_, _, _, _, _, _) =>
    forall r <- s.mark :: s.mark[r].fixed ==> r in s.objs && (s.objs[r].Str? || Alive(s, r))
  }

  lemma ColorsFixed(s: State)
    requires Colors(s) && LiveHeap(s)
    ensures FixedOk(s)
  {}

  lemma SweptAlive(s: State, t: State, l: set<Ref>)
    requires Swept(s, t, l) && FixedOk(s)
    ensures forall r :: Alive(s, r) ==> Alive(t, r)
    ensures forall r :: Alive(t, r) && !Alive(s, r) ==> r in t.objs && t.objs[r].Str?
  {
    hide Strings;
  }

  lemma SweptRefs(s: State, t: State, l: set<Ref>, r: Ref)
    requires Swept(s, t, l) && r in t.objs
    requires forall x <- l :: x in s.objs ==> !s.objs[x].Thread?
    ensures Refs(t, t.objs[r]) == Refs(s, s.objs[r])
  {
    hide Strings, Contents;
  }

  lemma SweptLive(s: State, t: State, l: set<Ref>)
    requires Swept(s, t, l) && LiveHeap(s) && FixedOk(s)
    requires forall x <- l :: x in s.objs ==> !s.objs[x].Thread?
    ensures LiveHeap(t)
  {
    SweptAlive(s, t, l);
    forall r <- t.objs | !IsDead(t, r) ensures AllAlive(t, Refs(t, t.objs[r])) {
      SweptRefs(s, t, l, r);
      hide Refs, Swept;
      if Alive(s, r) { assert AllAlive(s, Refs(s, s.objs[r])); } else { StringRefs(t, r); }
    }
  }

  lemma StringRefs(t: State, r: Ref)
    requires r in t.objs && t.objs[r].Str?
    ensures Refs(t, t.objs[r]) == []
  {}

  lemma SweptColors(s: State, t: State, l: set<Ref>)
    requires Swept(s, t, l) && Colors(s)
    requires s.g.main in t.objs
    ensures Colors(t)
  {
    hide Strings;
  }
}
