/** Sweeping keeps the invariant and frees only dead objects. */
module GcSweepInv {
  import opened GcHeap
  import opened GcMark
  import opened GcPropagate
  import opened GcAtomic
  import opened GcInvariant
  import opened GcBarrier
  import opened GcClose
  import opened GcSweep
  import StringHash

  // ---- Strings ------------------------------------------------------------

  lemma BucketChain(s: State)
    requires StringTable(s) && s.g.sweepstr < |s.g.strt| && s.mark.Keys == s.objs.Keys
    ensures Chain(s, s.g.strt[s.g.sweepstr])
  {}

  /** The swept bucket keeps exactly the strings that are still there. */
  lemma BucketMembers(s: State, m: State, strt: seq<seq<Ref>>)
    requires StringTable(s) && s.g.sweepstr < |s.g.strt|
    requires Swept(s, m, Elements(s.g.strt[s.g.sweepstr]))
    requires strt == s.g.strt[s.g.sweepstr := Kept(s, s.g.strt[s.g.sweepstr])]
    ensures |strt| == |s.g.strt|
    ensures forall i, r :: 0 <= i < |strt| ==> (r in strt[i] <==> r in s.g.strt[i] && r in m.objs)
    ensures forall i :: 0 <= i < |strt| ==> Distinct(strt[i])
  {
    var b := s.g.sweepstr;
    var l := s.g.strt[b];
    forall i, r | 0 <= i < |strt| ensures r in strt[i] <==> r in s.g.strt[i] && r in m.objs {
      BucketMember(s, m, i, r);
      hide Kept, StringTable, Swept;
    }
    hide StringTable, Swept;
    assert Distinct(l) ==> Distinct(Kept(s, l));
  }

  lemma BucketMember(s: State, m: State, i: nat, r: Ref)
    requires StringTable(s) && s.g.sweepstr < |s.g.strt| && i < |s.g.strt|
    requires Swept(s, m, Elements(s.g.strt[s.g.sweepstr]))
    ensures var strt := s.g.strt[s.g.sweepstr := Kept(s, s.g.strt[s.g.sweepstr])];
            r in strt[i] <==> r in s.g.strt[i] && r in m.objs
  {
    hide StringTable, Strings;
    if r in s.g.strt[i] { InBucket(s, i, r); }
  }

  /** A string is in one bucket. */
  lemma InBucket(s: State, i: nat, r: Ref)
    requires StringTable(s) && s.g.sweepstr < |s.g.strt| && i < |s.g.strt| && r in s.g.strt[i]
    ensures r in s.objs && s.objs[r].Str? && (i != s.g.sweepstr ==> r !in s.g.strt[s.g.sweepstr])
  {
    hide Strings, Distinct;
    assert StringHash.Bucket(s.objs[r].bytes, |s.g.strt|) == i;
  }

  lemma BucketTable(s: State, m: State, t: State)
    requires StringTable(s) && s.g.sweepstr < |s.g.strt| && s.mark.Keys == s.objs.Keys
    requires Swept(s, m, Elements(s.g.strt[s.g.sweepstr]))
    requires t.objs == m.objs && t.g.nuse == m.g.nuse
    requires t.g.strt == s.g.strt[s.g.sweepstr := Kept(s, s.g.strt[s.g.sweepstr])]
    ensures StringTable(t)
  {
    BucketMembers(s, m, t.g.strt);
    BucketCount(s, m, t);
    SweptObjs(s, m, Elements(s.g.strt[s.g.sweepstr]));
    hide Swept, Kept, Strings;
    StringTableMembers(s, t);
  }

  lemma SweptObjs(s: State, m: State, l: set<Ref>)
    requires Swept(s, m, l)
    ensures forall r <- m.objs :: r in s.objs && m.objs[r] == s.objs[r]
  {}

  lemma BucketCount(s: State, m: State, t: State)
    requires StringTable(s) && t.objs == m.objs && t.g.nuse == m.g.nuse
    requires exists l :: Swept(s, m, l)
    ensures t.g.nuse == |Strings(t)|
  {
    assert Strings(t) == Strings(m);
  }

  lemma StringTableMembers(s: State, t: State)
    requires StringTable(s) && |t.g.strt| == |s.g.strt|
    requires forall r <- t.objs :: r in s.objs && t.objs[r] == s.objs[r]
    requires forall i, r :: 0 <= i < |t.g.strt| ==> (r in t.g.strt[i] <==> r in s.g.strt[i] && r in t.objs)
    requires forall i :: 0 <= i < |t.g.strt| ==> Distinct(t.g.strt[i])
    requires t.g.nuse == |Strings(t)|
    ensures StringTable(t)
  {
    hide Strings, Distinct;
  }

  lemma BucketRootList(s: State, t: State, l: set<Ref>, limbo: set<Ref>)
    requires RootListBut(s, limbo) && Swept(s, t, l)
    requires forall r <- l :: r in s.objs ==> !Rooted(s.objs[r])
    ensures RootListBut(t, limbo)
  {
    hide Strings;
  }

  lemma BucketOpenLists(s: State, t: State, l: set<Ref>)
    requires OpenLists(s) && Swept(s, t, l)
    requires forall r <- l :: r in s.objs ==> s.objs[r].Str?
    ensures OpenLists(t)
  {
    hide Strings;
    forall th <- t.objs | t.objs[th].Thread? ensures OpenList(t, th) {
      assert OpenList(s, th);
      forall u <- s.objs[th].open ensures u in s.objs && s.objs[u].Open? {
        var i :| 0 <= i < |s.objs[th].open| && s.objs[th].open[i] == u;
      }
      OpenListSame(s, t, th);
    }
  }

  lemma BucketPhase(s: State, m: State, t: State)
    requires StringTable(s) && PhaseInv(s) && s.g.phase == SweepString && s.mark.Keys == s.objs.Keys
    requires Swept(s, m, Elements(s.g.strt[s.g.sweepstr]))
    requires t == m.(g := m.g.(strt := s.g.strt[s.g.sweepstr := Kept(s, s.g.strt[s.g.sweepstr])], sweepstr := s.g.sweepstr + 1,
                               phase := if s.g.sweepstr + 1 >= |s.g.strt| then Sweep else SweepString))
    requires StringTable(t)
    ensures PhaseInv(t)
  {
    BucketMembers(s, m, t.g.strt);
    BucketWhite(s, m, t);
    SweptFrame(s, m, Elements(s.g.strt[s.g.sweepstr]));
    hide Kept, Swept;
    if t.g.phase == Sweep {
      forall r <- t.objs | t.objs[r].Str? ensures CurWhite(t, r) {
        assert r in t.g.strt[StringHash.Bucket(t.objs[r].bytes, |t.g.strt|)];
      }
    }
  }

  lemma BucketWhite(s: State, m: State, t: State)
    requires PhaseInv(s) && s.g.phase == SweepString
    requires Swept(s, m, Elements(s.g.strt[s.g.sweepstr]))
    requires t.mark == m.mark && t.g.cur == s.g.cur && |t.g.strt| == |s.g.strt|
    requires forall i, r :: 0 <= i < |t.g.strt| ==> (r in t.g.strt[i] <==> r in s.g.strt[i] && r in m.objs)
    ensures forall i, r :: 0 <= i < s.g.sweepstr + 1 && r in t.g.strt[i] ==> CurWhite(t, r)
  {
    hide Strings, Swept;
    forall i, r | 0 <= i < s.g.sweepstr + 1 && r in t.g.strt[i] ensures CurWhite(t, r) {
      SweptMarks(s, m, Elements(s.g.strt[s.g.sweepstr]), r);
      assert r in s.g.strt[i];
      if i < s.g.sweepstr { assert CurWhite(s, r); } else { assert r in Elements(s.g.strt[i]); }
    }
  }

  lemma SweptMarks(s: State, t: State, l: set<Ref>, r: Ref)
    requires Swept(s, t, l) && r in t.objs
    ensures r in t.mark && r in s.mark
    ensures t.mark[r] == if r in l then s.mark[r].(color := White(s.g.cur)) else s.mark[r]
  {
    hide Strings;
  }

  lemma SweepBucketInv(s: State)
    requires Inv(s) && s.g.phase == SweepString
    ensures s.g.sweepstr < |s.g.strt| && Chain(s, s.g.strt[s.g.sweepstr]) && Inv(SweepBucket(s))
  {
    hide SweepChain, Kept, LiveHeap, StringTable, OpenLists, RootListBut, Swept;
    Aspects(s, {});
    BucketStart(s);
    var l := s.g.strt[s.g.sweepstr];
    var m := SweepChain(s, l);
    SweepChainSpec(s, l);
    var t := SweepBucket(s);
    BucketTable(s, m, t);
    BucketRootList(s, m, Elements(l), {});
    BucketOpenLists(s, m, Elements(l));
    ColorsFixed(s);
    SweptLive(s, m, Elements(l));
    SweptMain(s, m, Elements(l));
    SweptColors(s, m, Elements(l));
    SweptFrame(s, m, Elements(l));
    BucketPhase(s, m, t);
    RegistersOnly(m, t);
  }

  lemma BucketStart(s: State)
    requires Inv(s) && s.g.phase == SweepString
    ensures s.mark.Keys == s.objs.Keys
    ensures s.g.sweepstr < |s.g.strt| && Chain(s, s.g.strt[s.g.sweepstr])
    ensures forall r <- Elements(s.g.strt[s.g.sweepstr]) :: r in s.objs ==> s.objs[r].Str?
  {
    Aspects(s, {});
    BucketChain(s);
  }

  lemma SweptFrame(s: State, t: State, l: set<Ref>)
    requires Swept(s, t, l)
    ensures t == s.(objs := t.objs, mark := t.mark, g := s.g.(nuse := t.g.nuse, uvhead := t.g.uvhead))
  {}

  lemma SweptMain(s: State, t: State, l: set<Ref>)
    requires Swept(s, t, l) && LiveHeap(s)
    ensures s.g.main in t.objs
  {
    hide Strings;
  }

  /** Registers the predicates do not read. */
  lemma RegistersOnly(s: State, t: State)
    requires t == s.(g := s.g.(strt := t.g.strt, sweepstr := t.g.sweepstr, phase := t.g.phase))
    requires LiveHeap(s) && Colors(s) && OpenLists(s)
    ensures LiveHeap(t) && Colors(t) && OpenLists(t)
    ensures forall limbo :: RootListBut(s, limbo) ==> RootListBut(t, limbo)
  {
    OpenListsFrame(s, t);
    forall r ensures Alive(s, r) <==> Alive(t, r) {}
    forall r <- t.objs | !IsDead(t, r) ensures AllAlive(t, Refs(t, t.objs[r])) {
      RefsSame(s, t, s.objs[r]);
      hide Refs;
      assert AllAlive(s, Refs(s, s.objs[r]));
    }
  }

  // ---- Open upvalues of a thread ------------------------------------------

  lemma SweepOpenShape(s: State, th: Ref)
    requires Inv(s) && th in s.objs && s.objs[th].Thread?
    ensures Chain(s, s.objs[th].open)
    ensures forall u <- Elements(s.objs[th].open) :: u in s.objs && s.objs[u].Open? && s.objs[u].thread == th
    ensures Swept(s, SweepChain(s, s.objs[th].open), Elements(s.objs[th].open))
    ensures s.mark.Keys == s.objs.Keys
  {
    Aspects(s, {});
    assert OpenList(s, th);
    OpenChain(s, th);
    SweepChainSpec(s, s.objs[th].open);
    forall u <- s.objs[th].open ensures s.objs[u].thread == th {
      var i :| 0 <= i < |s.objs[th].open| && s.objs[th].open[i] == u;
    }
  }

  /** Only the list of open upvalues of one thread differs. */
  ghost predicate Unlisted(s: State, t: State, th: Ref) {
    match t case State(_, _, _, _, _, _) =>
    && th in s.objs && s.objs[th].Thread? && th in t.objs && t.objs[th].Thread?
    && t == s.(objs := t.objs)
    && t.objs == s.objs[th := s.objs[th].(open := t.objs[th].open)]
  }

  lemma UnlistedLive(s: State, t: State, th: Ref)
    requires Unlisted(s, t, th) && LiveHeap(s)
    ensures LiveHeap(t)
  {
    forall r ensures Alive(s, r) <==> Alive(t, r) {}
    forall r <- t.objs | !IsDead(t, r) ensures AllAlive(t, Refs(t, t.objs[r])) {
      UnlistedRefs(s, t, th, r);
      hide Refs;
      assert AllAlive(s, Refs(s, s.objs[r]));
    }
  }

  lemma UnlistedRefs(s: State, t: State, th: Ref, r: Ref)
    requires Unlisted(s, t, th) && r in t.objs
    ensures r in s.objs && Refs(t, t.objs[r]) == Refs(s, s.objs[r])
  {
    hide Contents;
  }

  lemma UnlistedRest(s: State, t: State, th: Ref, limbo: set<Ref>)
    requires Unlisted(s, t, th) && RootListBut(s, limbo) && StringTable(s) && Colors(s)
    ensures RootListBut(t, limbo) && StringTable(t) && Colors(t)
  {
    hide StringTable, RootListBut, Colors, Unlisted;
    UnlistedRoots(s, t, th, limbo);
    UnlistedColors(s, t, th);
    UnlistedStrings(s, t, th);
    StringTableSame(s, t);
  }

  lemma UnlistedRoots(s: State, t: State, th: Ref, limbo: set<Ref>)
    requires Unlisted(s, t, th) && RootListBut(s, limbo)
    ensures RootListBut(t, limbo)
  {
    hide Distinct, Disjoint;
  }

  lemma UnlistedColors(s: State, t: State, th: Ref)
    requires Unlisted(s, t, th) && Colors(s)
    ensures Colors(t)
  {}

  lemma UnlistedStrings(s: State, t: State, th: Ref)
    requires Unlisted(s, t, th)
    ensures SameStrings(s, t)
  {}

  lemma UnlistedSwept(s: State, m: State, th: Ref)
    requires th in s.objs && s.objs[th].Thread?
    requires forall u <- Elements(s.objs[th].open) :: u in s.objs && s.objs[u].Open?
    requires Swept(s, m, Elements(s.objs[th].open))
    ensures Unlisted(m, m.(objs := m.objs[th := s.objs[th].(open := Kept(s, s.objs[th].open))]), th)
  {
    hide Strings, Kept;
    assert th !in Elements(s.objs[th].open);
  }

  lemma SweepOpenInv(s: State, th: Ref)
    requires Inv(s) && s.g.phase == Sweep && th in s.objs && s.objs[th].Thread?
    ensures Chain(s, s.objs[th].open) && Inv(SweepOpen(s, th))
    ensures var t := SweepOpen(s, th);
            && t.g.rest == s.g.rest && t.g.phase == Sweep && th in t.objs && t.objs[th].Thread?
            && forall u <- t.objs[th].open :: CurWhite(t, u)
  {
    hide SweepChain, Kept, LiveHeap, StringTable, OpenLists, RootListBut, Swept, Unlisted;
    Aspects(s, {});
    SweepOpenShape(s, th);
    var l := s.objs[th].open;
    var m := SweepChain(s, l);
    var t := SweepOpen(s, th);
    SweepOpenLists(s, th);
    ColorsFixed(s);
    SweptLive(s, m, Elements(l));
    SweptMain(s, m, Elements(l));
    SweptColors(s, m, Elements(l));
    BucketRootList(s, m, Elements(l), {});
    SweptStringTable(s, m, Elements(l));
    SweptFrame(s, m, Elements(l));
    UnlistedSwept(s, m, th);
    UnlistedLive(m, t, th);
    UnlistedRest(m, t, th, {});
    SweepOpenPhase(s, m, t, th);
  }

  lemma SweptStringTable(s: State, t: State, l: set<Ref>)
    requires Swept(s, t, l) && StringTable(s)
    requires forall r <- l :: r in s.objs ==> !s.objs[r].Str?
    ensures StringTable(t)
  {
    hide StringTable;
    assert Strings(t) == Strings(s);
    assert SameStrings(s, t);
    StringTableSame(s, t);
  }

  lemma SweepOpenPhase(s: State, m: State, t: State, th: Ref)
    requires PhaseInv(s) && s.g.phase == Sweep && th in s.objs && s.objs[th].Thread?
    requires Swept(s, m, Elements(s.objs[th].open))
    requires forall u <- Elements(s.objs[th].open) :: u in s.objs && s.objs[u].Open?
    requires t == m.(objs := m.objs[th := s.objs[th].(open := Kept(s, s.objs[th].open))])
    requires RootListBut(t, {})
    ensures PhaseInv(t) && t.g.phase == Sweep
    ensures th in t.objs && t.objs[th].Thread? && forall u <- t.objs[th].open :: CurWhite(t, u)
  {
    hide Strings, Kept;
    forall r <- t.objs | CurWhite(s, r) ensures CurWhite(t, r) {}
    forall u <- t.objs[th].open ensures CurWhite(t, u) {
      assert u in s.objs[th].open && u in m.objs;
    }
  }

  // ---- One object of rootgc -----------------------------------------------

  lemma SweepSurvivor(s: State, r: Ref)
    requires Inv(s) && s.g.phase == Sweep && s.g.rest != [] && r == s.g.rest[0]
    requires r in s.objs && (s.objs[r].Thread? ==> forall u <- s.objs[r].open :: CurWhite(s, u))
    requires Survives(s, r)
    ensures Inv(Whiten(s, r).(g := s.g.(rest := s.g.rest[1..], swept := s.g.swept + [r])))
  {
    Aspects(s, {});
    var t := Whiten(s, r).(g := s.g.(rest := s.g.rest[1..], swept := s.g.swept + [r]));
    SurvivorLists(s, t, r);
    SurvivorLive(s, t, r);
    SurvivorPhase(s, t, r);
  }

  lemma SurvivorLists(s: State, t: State, r: Ref)
    requires Structure(s) && Colors(s) && s.g.rest != [] && r == s.g.rest[0]
    requires t == Whiten(s, r).(g := s.g.(rest := s.g.rest[1..], swept := s.g.swept + [r]))
    ensures Structure(t) && Colors(t)
  {
    hide OpenLists, StringTable;
    OtherLists(s, t);
    MoveToSwept(s, t, r);
  }

  lemma MoveToSwept(s: State, t: State, r: Ref)
    requires RootListBut(s, {}) && s.g.rest != [] && r == s.g.rest[0]
    requires t.objs == s.objs && t.g.rest == s.g.rest[1..] && t.g.swept == s.g.swept + [r]
    ensures RootListBut(t, {})
  {
    TailMembers(s.g.rest);
    assert r !in s.g.swept;
    assert Distinct(t.g.swept);
    assert forall x :: x in t.g.swept <==> x in s.g.swept || x == r;
  }

  lemma SurvivorLive(s: State, t: State, r: Ref)
    requires Colors(s) && LiveHeap(s) && r in s.mark && Survives(s, r) && r in s.objs && !s.objs[r].Str?
    requires t == Whiten(s, r).(g := s.g.(rest := t.g.rest, swept := t.g.swept))
    ensures LiveHeap(t)
  {
    assert Alive(s, r);
    forall x ensures Alive(s, x) <==> Alive(t, x) {}
    forall x <- t.objs | !IsDead(t, x) ensures AllAlive(t, Refs(t, t.objs[x])) {
      RefsSame(s, t, s.objs[x]);
      hide Refs;
      assert AllAlive(s, Refs(s, s.objs[x]));
    }
  }

  lemma SurvivorPhase(s: State, t: State, r: Ref)
    requires Inv(s) && s.g.phase == Sweep && s.g.rest != [] && r == s.g.rest[0]
    requires r in s.objs && r in s.mark && (s.objs[r].Thread? ==> forall u <- s.objs[r].open :: CurWhite(s, u))
    requires t == Whiten(s, r).(g := s.g.(rest := s.g.rest[1..], swept := s.g.swept + [r]))
    ensures PhaseInv(t)
  {
    hide StringTable, LiveHeap;
    Aspects(s, {});
    assert forall x <- t.g.swept :: x in s.g.swept || x == r;
    forall x <- t.objs | CurWhite(s, x) ensures CurWhite(t, x) {}
  }

  /** Freeing a dead object that is on no list any more. */
  lemma FreeDead(s: State, r: Ref)
    requires InvBut(s, {r}) && s.g.phase == Sweep && r in s.objs && Rooted(s.objs[r]) && IsDead(s, r)
    requires s.objs[r].Thread? ==> s.objs[r].open == []
    ensures Inv(FreeLeaf(s, r))
  {
    hide OpenLists, StringTable, LiveHeap;
    Aspects(s, {r});
    var t := FreeLeaf(s, r);
    FreeOpenLists(s, t, r);
    FreeStrings(s, t, r);
    FreeLive(s, t, r);
    FreeColors(s, t, r);
    assert RootListBut(t, {});
    hide RootListBut;
    assert PhaseInv(t);
  }

  lemma FreeColors(s: State, t: State, r: Ref)
    requires Colors(s) && LiveHeap(s) && r in s.objs && Rooted(s.objs[r]) && IsDead(s, r) && t == FreeLeaf(s, r)
    ensures Colors(t)
  {
    assert r != s.g.main;
  }

  lemma FreeOpenLists(s: State, t: State, r: Ref)
    requires OpenLists(s) && r in s.objs && Rooted(s.objs[r]) && t == FreeLeaf(s, r)
    requires s.objs[r].Thread? ==> s.objs[r].open == []
    ensures OpenLists(t)
  {
    forall th <- t.objs | t.objs[th].Thread? ensures OpenList(t, th) {
      assert OpenList(s, th);
      forall u <- s.objs[th].open ensures u in s.objs && s.objs[u].Open? {
        var i :| 0 <= i < |s.objs[th].open| && s.objs[th].open[i] == u;
      }
      OpenListSame(s, t, th);
    }
  }

  lemma FreeStrings(s: State, t: State, r: Ref)
    requires StringTable(s) && r in s.objs && Rooted(s.objs[r]) && t == FreeLeaf(s, r)
    ensures StringTable(t)
  {
    hide StringTable;
    assert SameStrings(s, t);
    StringTableSame(s, t);
  }

  lemma FreeLive(s: State, t: State, r: Ref)
    requires LiveHeap(s) && OpenLists(s) && r in s.objs && Rooted(s.objs[r]) && IsDead(s, r) && t == FreeLeaf(s, r)
    requires s.objs[r].Thread? ==> s.objs[r].open == []
    ensures LiveHeap(t)
  {
    forall x ensures Alive(s, x) <==> Alive(t, x) {}
    forall x <- t.objs | !IsDead(t, x) ensures AllAlive(t, Refs(t, t.objs[x])) {
      assert s.objs[x].Open? ==> s.objs[x].thread != r;
      FreeRefs(s, t, r, x);
      hide Refs;
      assert AllAlive(s, Refs(s, s.objs[x]));
    }
  }

  lemma FreeRefs(s: State, t: State, r: Ref, x: Ref)
    requires r in s.objs && Rooted(s.objs[r]) && t == FreeLeaf(s, r) && x in t.objs
    requires s.objs[x].Open? ==> s.objs[x].thread != r
    ensures Refs(t, t.objs[x]) == Refs(s, s.objs[x])
  {
    hide Contents;
  }

  /** Unlinking the head of the unswept part. */
  lemma Unlink(s: State)
    requires Inv(s) && s.g.rest != []
    ensures InvBut(s.(g := s.g.(rest := s.g.rest[1..])), {s.g.rest[0]})
    ensures s.g.rest[0] in s.objs && Rooted(s.objs[s.g.rest[0]])
    requires s.g.phase == Sweep
  {
    hide StringTable, OpenLists, LiveHeap;
    Aspects(s, {});
    var t := s.(g := s.g.(rest := s.g.rest[1..]));
    TailMembers(s.g.rest);
    assert RootListBut(t, {s.g.rest[0]});
    OtherLists(s, t);
    UnlinkLive(s, t);
  }

  lemma UnlinkLive(s: State, t: State)
    requires LiveHeap(s) && t == s.(g := s.g.(rest := t.g.rest))
    ensures LiveHeap(t)
  {
    forall r ensures Alive(s, r) <==> Alive(t, r) {}
    forall r <- t.objs | !IsDead(t, r) ensures AllAlive(t, Refs(t, t.objs[r])) {
      RefsSame(s, t, s.objs[r]);
      hide Refs;
      assert AllAlive(s, Refs(s, s.objs[r]));
    }
  }

  // ---- The step over rootgc -----------------------------------------------

  lemma SweepDead(s: State, r: Ref)
    requires Inv(s) && s.g.phase == Sweep && s.g.rest != [] && r == s.g.rest[0]
    requires r in s.objs && !Survives(s, r)
    ensures var s1 := s.(g := s.g.(rest := s.g.rest[1..]));
            (s.objs[r].Thread? ==> Closable(s1, r)) && Inv(FreeObj(s1, r))
  {
    hide LiveHeap, StringTable, CloseOne, RootListBut;
    Aspects(s, {});
    var s1 := s.(g := s.g.(rest := s.g.rest[1..]));
    Unlink(s);
    assert IsDead(s1, r);
    if s.objs[r].Thread? {
      CloseUpvalsInv(s1, r, 0, {r});
      var s2 := CloseUpvals(s1, r, 0);
      CloseUpvalsThread(s1, r, r);
      FreeDead(s2, r);
    } else {
      FreeDead(s1, r);
    }
  }

  /** Closing everything empties the list; nothing dead is revived. */
  lemma {:induction false} CloseUpvalsThread(s: State, th: Ref, r: Ref)
    requires InvBut(s, {r}) && th in s.objs && s.objs[th].Thread? && s.g.phase == Sweep
    requires r in s.objs && Rooted(s.objs[r]) && IsDead(s, r)
    ensures Closable(s, th)
    ensures var t := CloseUpvals(s, th, 0);
            t.objs[th].open == [] && r in t.objs && Rooted(t.objs[r]) && IsDead(t, r) && t.g.phase == Sweep
    decreases |s.objs[th].open|
  {
    hide LiveHeap, StringTable, PhaseInv, RootListBut, CloseOne;
    Aspects(s, {r});
    assert OpenList(s, th);
    if s.objs[th].open != [] {
      var t := CloseOne(s, th);
      CloseOneInv(s, th, {r});
      CloseOneClosable(s, t, th);
      CloseShapes(s, t, th);
      CloseOneMarks(s, th);
      CloseAlive(s, t, th);
      hide ClosedOne, MarksClosed, OpenLists;
      CloseUpvalsThread(t, th, r);
    }
  }

  lemma SweepRootHeadInv(s: State)
    requires Inv(s) && s.g.phase == Sweep && s.g.rest != []
    requires Sweepable(s)
    requires s.g.rest[0] in s.objs && (s.objs[s.g.rest[0]].Thread? ==> forall u <- s.objs[s.g.rest[0]].open :: CurWhite(s, u))
    ensures Inv(SweepRootHead(s))
  {
    hide LiveHeap, StringTable, RootListBut, OpenLists, CloseUpvals, FreeObj;
    Aspects(s, {});
    var r := s.g.rest[0];
    if Survives(s, r) {
      SweepSurvivor(s, r);
      assert SweepRootHead(s) == Whiten(s, r).(g := s.g.(rest := s.g.rest[1..], swept := s.g.swept + [r]));
    } else {
      SweepDead(s, r);
    }
  }

  lemma InvSweepable(s: State)
    requires Inv(s)
    ensures Sweepable(s)
    ensures forall r <- s.g.rest :: r in s.objs
  {
    hide LiveHeap, StringTable, PhaseInv;
    Aspects(s, {});
  }

  lemma SweepRootOneInv(s: State)
    requires Inv(s) && s.g.phase == Sweep && s.g.rest != []
    ensures Sweepable(s) && Inv(SweepRootOne(s))
  {
    hide LiveHeap, StringTable, RootListBut, OpenLists, SweepOpen, SweepRootHead, PhaseInv;
    Aspects(s, {});
    InvSweepable(s);
    var r := s.g.rest[0];
    assert r in s.g.rest;
    if s.objs[r].Thread? {
      SweepOpenInv(s, r);
      InvSweepable(SweepOpen(s, r));
      SweepRootHeadInv(SweepOpen(s, r));
    } else {
      SweepRootHeadInv(s);
    }
  }
}
