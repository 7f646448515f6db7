/** Strings that are never collected (`luaS_fix`). */
module GcFixed {
  import opened GcHeap
  import opened GcMark
  import opened GcPropagate
  import opened GcAtomic
  import opened GcInvariant
  import opened GcStrings

  /** `luaS_fix`. */
  function Fix(s: State, r: Ref): State
    requires r in s.mark
  {
    s.(mark := s.mark[r := s.mark[r].(fixed := true)])
  }

  lemma FixInv(s: State, r: Ref)
    requires Inv(s) && r in s.objs && s.objs[r].Str?
    ensures r in s.mark && Inv(Fix(s, r))
  {
    hide RootListBut, OpenLists, StringTable, LiveHeap, PhaseInv;
    Aspects(s, {});
    var t := Fix(s, r);
    assert SameKinds(s, t);
    StructureSameKinds(s, t);
    FixLive(s, r);
    FixPhase(s, r);
  }

  lemma FixLive(s: State, r: Ref)
    requires LiveHeap(s) && r in s.mark
    ensures LiveHeap(Fix(s, r))
  {
    var t := Fix(s, r);
    forall x ensures Alive(s, x) <==> Alive(t, x) {}
    forall x <- t.objs ensures Refs(t, t.objs[x]) == Refs(s, s.objs[x]) { RefsSame(s, t, s.objs[x]); }
    hide Refs;
    forall x <- t.objs | !IsDead(t, x) ensures AllAlive(t, Refs(t, t.objs[x])) {
      assert AllAlive(s, Refs(s, s.objs[x]));
    }
  }

  lemma FixPhase(s: State, r: Ref)
    requires PhaseInv(s) && Colors(s) && r in s.objs && s.objs[r].Str?
    ensures PhaseInv(Fix(s, r))
  {
    var t := Fix(s, r);
    forall x ensures CurWhite(s, x) <==> CurWhite(t, x) {}
    if s.g.phase == Propagate { FixTriColor(s, r); }
  }

  lemma FixTriColor(s: State, r: Ref)
    requires NoDead(s) && TriColor(s) && r in s.objs && s.objs[r].Str?
    ensures NoDead(Fix(s, r)) && TriColor(Fix(s, r))
  {
    hide ListsGray, Scanned, GrayListed, Done;
    FixLists(s, r);
    FixScanned(s, r);
  }

  lemma FixLists(s: State, r: Ref)
    requires ListsGray(s) && GrayListed(s) && r in s.objs
    ensures ListsGray(Fix(s, r)) && GrayListed(Fix(s, r))
  {
    hide Distinct, Disjoint;
    assert forall x :: IsGray(Fix(s, r), x) <==> IsGray(s, x);
  }

  lemma FixScanned(s: State, r: Ref)
    requires s.mark.Keys == s.objs.Keys && r in s.objs && s.objs[r].Str? && Scanned(s, Later(s))
    ensures Scanned(Fix(s, r), Later(Fix(s, r)))
  {
    var t := Fix(s, r);
    assert Later(t) == Later(s);
    forall x <- s.objs ensures Done(t, x) <==> Done(s, x) { FixDone(s, r, x); }
    hide Done, Later;
  }

  lemma FixDone(s: State, r: Ref, x: Ref)
    requires r in s.mark && s.mark.Keys == s.objs.Keys && x in s.objs && s.objs[r].Str?
    ensures Done(Fix(s, r), x) <==> Done(s, x)
  {
    var t := Fix(s, r);
    RefsSame(s, t, s.objs[x]);
    hide Refs, StrongRefs;
    assert forall v :: Marked(s, v) <==> Marked(t, v);
  }
}
