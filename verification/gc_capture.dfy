/** Objects found again rather than made: interned strings and open upvalues. */
module GcCapture {
  import opened GcHeap
  import opened GcMark
  import opened GcPropagate
  import opened GcAtomic
  import opened GcInvariant
  import opened GcBarrier
  import opened GcStrings
  import opened GcMutator
  import opened GcWrites
  import opened GcSweepInv
  import StringHash

  // ---- luaF_findupval -----------------------------------------------------

  /** The number of open upvalues above `level`. */
  function Above(s: State, l: seq<Ref>, level: nat): (i: nat)
    requires forall u <- l :: u in s.objs && s.objs[u].Open?
    ensures i <= |l|
    ensures forall j :: 0 <= j < i ==> s.objs[l[j]].level > level
    ensures i < |l| ==> s.objs[l[i]].level <= level
  {
    if l == [] || s.objs[l[0]].level <= level then 0 else 1 + Above(s, l[1..], level)
  }

  ghost predicate Capturable(s: State) {
    match s case State(_, _, _, _, _, _) =>
    && s.mark.Keys == s.objs.Keys
    && s.g.running in s.objs && s.objs[s.g.running].Thread?
    && forall u <- s.objs[s.g.running].open :: u in s.objs && s.objs[u].Open?
  }

  /** `luaF_findupval` for the running thread: the upvalue already open on this
      level (revived if dead), or a new one in its place in the list. */
  function FindUpval(s: State, level: nat, r: Ref): State
    requires Capturable(s) && r !in s.objs
  {
    var th := s.g.running;
    var l := s.objs[th].open;
    var i := Above(s, l, level);
    if i < |l| && s.objs[l[i]].level == level then Revive(s, l[i])
    else
      s.(objs := s.objs[th := s.objs[th].(open := l[..i] + [r] + l[i..])][r := Open(th, level)],
         mark := s.mark[r := FreshMark(s)],
         g := s.g.(uvhead := [r] + s.g.uvhead, tmp := s.g.tmp + {r}))
  }

  /** The upvalue a capture of `level` returns. */
  function Captured(s: State, level: nat, r: Ref): Ref
    requires Capturable(s)
  {
    var l := s.objs[s.g.running].open;
    var i := Above(s, l, level);
    if i < |l| && s.objs[l[i]].level == level then l[i] else r
  }

  // ---- Reviving -----------------------------------------------------------

  /** Reviving an object whose references are alive. */
  lemma ReviveInv(s: State, q: Ref)
    requires Inv(s) && q in s.objs && AllAlive(s, Refs(s, s.objs[q]))
    requires s.g.phase == Sweep || s.g.phase == SweepString || !IsDead(s, q)
    ensures s.mark.Keys == s.objs.Keys && Inv(Revive(s, q))
  {
    hide RootListBut, StringTable, OpenLists, LiveHeap, PhaseInv;
    Aspects(s, {});
    var t := Revive(s, q);
    ReviveStructure(s, t, q);
    ReviveLive(s, t, q);
    RevivePhase(s, t, q);
  }

  lemma ReviveStructure(s: State, t: State, q: Ref)
    requires Structure(s) && Colors(s) && q in s.objs && t == Revive(s, q)
    ensures Structure(t) && Colors(t)
  {
    hide RootListBut, StringTable, OpenLists;
    assert SameKinds(s, t);
    StructureSameKinds(s, t);
  }

  lemma ReviveLive(s: State, t: State, q: Ref)
    requires LiveHeap(s) && q in s.objs && q in s.mark && t == Revive(s, q) && AllAlive(s, Refs(s, s.objs[q]))
    ensures LiveHeap(t)
  {
    forall x ensures Alive(s, x) ==> Alive(t, x) {}
    forall x <- t.objs | !IsDead(t, x)
      ensures x in s.objs && Refs(t, t.objs[x]) == Refs(s, s.objs[x])
    {
      RefsSame(s, t, s.objs[x]);
    }
    hide Refs;
    forall x <- t.objs | !IsDead(t, x) ensures AllAlive(t, Refs(t, t.objs[x])) {
      assert AllAlive(s, Refs(s, s.objs[x]));
    }
  }

  lemma RevivePhase(s: State, t: State, q: Ref)
    requires PhaseInv(s) && q in s.mark && t == Revive(s, q)
    requires s.g.phase == Sweep || s.g.phase == SweepString || !IsDead(s, q)
    ensures PhaseInv(t)
  {
    forall x | CurWhite(s, x) ensures CurWhite(t, x) {}
    if s.g.phase == Propagate { RegistersTriColor(s, t); }
  }

  lemma RegistersTriColor(s: State, t: State)
    requires TriColor(s) && t == s.(g := t.g) && t.g.main == s.g.main && t.g.registry == s.g.registry
    ensures TriColor(t)
  {
    hide Done;
    forall x <- s.objs ensures Done(t, x) <==> Done(s, x) { DoneRegisters(s, t, x); }
  }

  lemma DoneRegisters(s: State, t: State, x: Ref)
    requires x in s.objs && t == s.(g := t.g)
    ensures Done(t, x) <==> Done(s, x)
  {
    RefsSame(s, t, s.objs[x]);
    hide Refs, StrongRefs;
  }

  lemma NoDeadPhase(s: State, q: Ref)
    requires PhaseInv(s) && IsDead(s, q)
    ensures s.g.phase == Sweep || s.g.phase == SweepString
  {
    assert CurWhite(s, q) ==> !IsDead(s, q);
  }

  // ---- Interning ----------------------------------------------------------

  lemma InternInv(s: State, bytes: seq<bv8>, r: Ref)
    requires Inv(s) && r !in s.objs
    ensures s.mark.Keys == s.objs.Keys && StringTable(s) && Inv(Intern(s, bytes, r))
  {
    hide RootListBut, OpenLists, LiveHeap, Lookup;
    Aspects(s, {});
    var q := Lookup(s, s.g.strt[StringHash.Bucket(bytes, |s.g.strt|)], bytes);
    if q.Some? {
      InternOld(s, q.value, bytes);
    } else {
      NewStringInv(s, bytes, r);
    }
  }

  lemma InternOld(s: State, q: Ref, bytes: seq<bv8>)
    requires Inv(s) && q in s.objs && s.objs[q] == Str(bytes)
    ensures s.mark.Keys == s.objs.Keys && Inv(Revive(s, q))
  {
    hide RootListBut, OpenLists, StringTable, LiveHeap, PhaseInv;
    Aspects(s, {});
    ColorsKeys(s);
    if IsDead(s, q) { NoDeadPhase(s, q); }
    assert Refs(s, s.objs[q]) == [];
    ReviveInv(s, q);
  }

  lemma NewStringInv(s: State, bytes: seq<bv8>, r: Ref)
    requires Inv(s) && StringTable(s) && s.mark.Keys == s.objs.Keys && r !in s.objs
    requires Lookup(s, s.g.strt[StringHash.Bucket(bytes, |s.g.strt|)], bytes).None?
    ensures Inv(NewString(s, bytes, r))
  {
    hide RootListBut, OpenLists, LiveHeap, StringTable, AddString, Lookup;
    Aspects(s, {});
    AddStringInv(s, bytes, r);
    var t := AddString(s, bytes, r);
    Aspects(t, {});
    StringTableNonEmpty(t);
    if t.g.nuse > |t.g.strt| && |t.g.strt| <= MAX_INT / 2 {
      ResizeInv(t, |t.g.strt| * 2);
    }
  }

  lemma StringTableNonEmpty(s: State)
    requires StringTable(s)
    ensures |s.g.strt| > 0
  {}

  lemma ResizeInv(s: State, n: nat)
    requires Inv(s) && StringTable(s) && n > 0
    ensures Inv(Resize(s, n))
  {
    hide RootListBut, StringTable, LiveHeap, Resize;
    Aspects(s, {});
    ResizeTable(s, n);
    var t := Resize(s, n);
    assert SameKinds(s, t);
    OpenListsSame(s, t);
    RegistersOnly(s, t);
    assert RootListBut(t, {});
    if s.g.phase == SweepString { ResizeIdle(s, n); }
    ResizePhase(s, t);
  }

  lemma ResizeIdle(s: State, n: nat)
    requires StringTable(s) && n > 0 && s.g.phase == SweepString
    ensures Resize(s, n) == s
  {}

  lemma ResizePhase(s: State, t: State)
    requires PhaseInv(s) && t == s.(g := s.g.(strt := t.g.strt)) && (s.g.phase == SweepString ==> t == s)
    ensures PhaseInv(t)
  {
    if s.g.phase == Propagate { RegistersTriColor(s, t); }
  }

  lemma AddStringInv(s: State, bytes: seq<bv8>, r: Ref)
    requires Inv(s) && StringTable(s) && s.mark.Keys == s.objs.Keys && r !in s.objs
    requires Lookup(s, s.g.strt[StringHash.Bucket(bytes, |s.g.strt|)], bytes).None?
    ensures Inv(AddString(s, bytes, r))
  {
    hide LiveHeap, OpenLists, Lookup, StringTable, Colors;
    Aspects(s, {});
    AddStringTable(s, bytes, r);
    ColorsKeys(s);
    AddLeafRest(s, AddString(s, bytes, r), bytes, r);
    AddStringPhase(s, bytes, r);
  }

  lemma AddLeafRest(s: State, t: State, bytes: seq<bv8>, r: Ref)
    requires Inv(s) && StringTable(s) && r !in s.objs && t == AddString(s, bytes, r)
    ensures OpenLists(t) && LiveHeap(t) && Colors(t)
  {
    hide RootListBut, PhaseInv, OpenLists;
    Aspects(s, {});
    AddStringOpen(s, t, bytes, r);
    AddStringLive(s, t, bytes, r);
    hide StringTable, LiveHeap;
  }

  lemma AddStringOpen(s: State, t: State, bytes: seq<bv8>, r: Ref)
    requires OpenLists(s) && |s.g.strt| > 0 && r !in s.objs && t == AddString(s, bytes, r)
    ensures OpenLists(t)
  {
    forall th <- t.objs | t.objs[th].Thread? ensures OpenList(t, th) {
      assert OpenList(s, th);
      forall u <- s.objs[th].open ensures u in s.objs {
        var i :| 0 <= i < |s.objs[th].open| && s.objs[th].open[i] == u;
      }
      OpenListSame(s, t, th);
    }
  }

  lemma AddStringLive(s: State, t: State, bytes: seq<bv8>, r: Ref)
    requires LiveHeap(s) && OpenLists(s) && Colors(s) && |s.g.strt| > 0 && r !in s.objs && t == AddString(s, bytes, r)
    ensures LiveHeap(t)
  {
    forall x ensures Alive(s, x) ==> Alive(t, x) {}
    forall x <- t.objs ensures if x == r then Refs(t, t.objs[x]) == [] else Refs(t, t.objs[x]) == Refs(s, s.objs[x]) {
      AddStringRefs(s, t, bytes, r, x);
    }
    hide Refs;
    LiveTransfer(s, t);
  }

  lemma AddStringRefs(s: State, t: State, bytes: seq<bv8>, r: Ref, x: Ref)
    requires OpenLists(s) && |s.g.strt| > 0 && r !in s.objs && t == AddString(s, bytes, r) && x in t.objs
    ensures if x == r then Refs(t, t.objs[x]) == [] else x in s.objs && Refs(t, t.objs[x]) == Refs(s, s.objs[x])
  {
    hide Contents;
  }

  lemma AddStringPhase(s: State, bytes: seq<bv8>, r: Ref)
    requires Inv(s) && StringTable(s) && s.mark.Keys == s.objs.Keys && r !in s.objs
    ensures PhaseInv(AddString(s, bytes, r))
  {
    hide RootListBut, LiveHeap, Colors, OpenLists;
    Aspects(s, {});
    var t := AddString(s, bytes, r);
    if s.g.phase == Propagate {
      StringTableNonEmpty(s);
      AddStringTriColor(s, t, bytes, r);
    } else {
      AddStringWhite(s, t, bytes, r);
    }
  }

  lemma AddStringWhite(s: State, t: State, bytes: seq<bv8>, r: Ref)
    requires StringTable(s) && OpenLists(s) && PhaseInv(s) && s.g.phase != Propagate && r !in s.objs
    requires s.mark.Keys == s.objs.Keys && t == AddString(s, bytes, r)
    ensures PhaseInv(t)
  {
    StringTableNonEmpty(s);
    forall x | CurWhite(s, x) ensures CurWhite(t, x) {}
    assert CurWhite(t, r);
    hide StringTable, OpenList;
    if s.g.phase == SweepString {
      forall b, x | 0 <= b < s.g.sweepstr && x in t.g.strt[b] ensures CurWhite(t, x) {
        if x != r { assert x in s.g.strt[b]; }
      }
    }
  }

  lemma AddStringTriColor(s: State, t: State, bytes: seq<bv8>, r: Ref)
    requires NoDead(s) && TriColor(s) && OpenLists(s) && LiveHeap(s) && |s.g.strt| > 0 && r !in s.objs
    requires t == AddString(s, bytes, r)
    ensures NoDead(t) && TriColor(t)
  {
    hide Refs, Done, OpenLists, Distinct, Disjoint;
    LeafGrayLists(s, t, r);
    hide ListsGray, GrayListed;
    assert Later(s) <= Later(t);
    forall x <- t.mark | !IsWhite(t, x)
      ensures x in t.gray || x in Later(t) || Done(t, x)
    {
      if x !in s.gray && x !in Later(s) { AddStringDone(s, t, bytes, r, x); }
    }
  }

  /** A new white object is on no gray list. */
  lemma LeafGrayLists(s: State, t: State, r: Ref)
    requires ListsGray(s) && GrayListed(s) && r !in s.objs
    requires t.gray == s.gray && t.grayagain == s.grayagain && t.weak == s.weak
    requires t.objs.Keys == s.objs.Keys + {r} && t.mark == s.mark[r := FreshMark(s)]
    requires forall x <- s.objs :: Container(t.objs[x]) == Container(s.objs[x]) && t.objs[x].Table? == s.objs[x].Table?
    ensures ListsGray(t) && GrayListed(t)
  {
    hide Distinct, Disjoint;
    assert forall x :: x in s.gray || x in s.grayagain || x in s.weak ==> x != r;
  }

  lemma AddStringDone(s: State, t: State, bytes: seq<bv8>, r: Ref, x: Ref)
    requires OpenLists(s) && |s.g.strt| > 0 && r !in s.objs && t == AddString(s, bytes, r)
    requires x in s.objs && AllAlive(s, Refs(s, s.objs[x])) && x !in s.weak && Done(s, x)
    ensures Done(t, x)
  {
    AddStringRefs(s, t, bytes, r, x);
    hide Refs;
  }

  // ---- Captures -----------------------------------------------------------

  /** A new open upvalue has been put in its place. */
  ghost predicate Inserted(s: State, t: State, th: Ref, level: nat, r: Ref) {
    match t case State(_, _, _, _, _, _) =>
    && r !in s.objs && th in s.objs && s.objs[th].Thread? && level < |s.objs[th].stack|
    && th in t.objs && t.objs[th].Thread? && s.mark.Keys == s.objs.Keys
    && t == s.(objs := s.objs[th := s.objs[th].(open := t.objs[th].open)][r := Open(th, level)],
               mark := s.mark[r := FreshMark(s)],
               g := s.g.(uvhead := [r] + s.g.uvhead, tmp := s.g.tmp + {r}))
    && (forall x :: x in t.objs[th].open <==> x in s.objs[th].open || x == r)
    && OpenList(t, th)
  }

  lemma InsertedOrder(s: State, level: nat, r: Ref)
    requires Inv(s) && r !in s.objs
    requires var th := s.g.running; th in s.objs && s.objs[th].Thread? && level < |s.objs[th].stack|
    requires Capturable(s)
    requires var l := s.objs[s.g.running].open; var i := Above(s, l, level);
             !(i < |l| && s.objs[l[i]].level == level)
    ensures Inserted(s, FindUpval(s, level, r), s.g.running, level, r)
  {
    hide RootListBut, StringTable, LiveHeap, PhaseInv, Colors, Above;
    Aspects(s, {});
    var th := s.g.running;
    var l := s.objs[th].open;
    var i := Above(s, l, level);
    var t := FindUpval(s, level, r);
    assert OpenList(s, th);
    InsertList(s, t, th, level, r, i);
    hide OpenLists, OpenList;
    assert t.objs[th].open == l[..i] + [r] + l[i..];
  }

  lemma InsertList(s: State, t: State, th: Ref, level: nat, r: Ref, i: nat)
    requires th in s.objs && s.objs[th].Thread? && OpenList(s, th) && r !in s.objs && level < |s.objs[th].stack|
    requires i <= |s.objs[th].open| && forall u <- s.objs[th].open :: u in s.objs && s.objs[u].Open?
    requires forall a :: 0 <= a < i ==> s.objs[s.objs[th].open[a]].level > level
    requires i < |s.objs[th].open| ==> s.objs[s.objs[th].open[i]].level < level
    requires var l := s.objs[th].open;
             t.objs == s.objs[th := s.objs[th].(open := l[..i] + [r] + l[i..])][r := Open(th, level)]
    ensures th in t.objs && t.objs[th].Thread? && OpenList(t, th)
    ensures forall x :: x in t.objs[th].open <==> x in s.objs[th].open || x == r
  {
    var l := s.objs[th].open;
    var m := l[..i] + [r] + l[i..];
    assert t.objs[th].open == m;
    assert forall x :: x in m <==> x in l || x == r by {
      assert l == l[..i] + l[i..];
    }
    forall j | 0 <= j < |m| ensures m[j] in t.objs && t.objs[m[j]].Open? && t.objs[m[j]].thread == th && t.objs[m[j]].level < |s.objs[th].stack|
    {
      if j < i { assert m[j] == l[j]; } else if j > i { assert m[j] == l[j - 1]; }
    }
    forall j, k | 0 <= j < k < |m| ensures t.objs[m[j]].level > t.objs[m[k]].level {
      InsertLevels(s, l, i, r, level, j, k);
    }
  }

  lemma InsertLevels(s: State, l: seq<Ref>, i: nat, r: Ref, level: nat, j: nat, k: nat)
    requires i <= |l| && j < k <= |l| && r !in s.objs
    requires forall u <- l :: u in s.objs && s.objs[u].Open?
    requires forall a, b :: 0 <= a < b < |l| ==> s.objs[l[a]].level > s.objs[l[b]].level
    requires forall a :: 0 <= a < i ==> s.objs[l[a]].level > level
    requires i < |l| ==> s.objs[l[i]].level < level
    ensures var m := l[..i] + [r] + l[i..];
            var lv := (x: Ref) => if x in s.objs && s.objs[x].Open? then s.objs[x].level else level;
            lv(m[j]) > lv(m[k])
  {
    var m := l[..i] + [r] + l[i..];
    if j < i { assert m[j] == l[j]; } else if j > i { assert m[j] == l[j - 1]; }
    if k < i { assert m[k] == l[k]; } else if k > i { assert m[k] == l[k - 1]; }
    if j == i && k > i + 1 { assert s.objs[l[i]].level > s.objs[l[k - 1]].level; }
  }

  lemma InsertedOpenLists(s: State, t: State, th: Ref, level: nat, r: Ref)
    requires OpenLists(s) && Inserted(s, t, th, level, r)
    ensures OpenLists(t)
  {
    forall x <- t.objs | t.objs[x].Thread? && x != th ensures OpenList(t, x) {
      assert OpenList(s, x);
      forall u <- s.objs[x].open ensures u in s.objs && u != th && u != r {
        var i :| 0 <= i < |s.objs[x].open| && s.objs[x].open[i] == u;
      }
      OpenListSame(s, t, x);
    }
    assert r !in s.g.uvhead;
    assert forall x :: x in t.g.uvhead <==> x == r || x in s.g.uvhead;
  }

  lemma InsertedRefs(s: State, t: State, th: Ref, level: nat, r: Ref, x: Ref)
    requires OpenLists(s) && Inserted(s, t, th, level, r) && x in t.objs
    ensures if x == r then Refs(t, t.objs[x]) == [s.objs[th].stack[level]]
            else x in s.objs && Refs(t, t.objs[x]) == Refs(s, s.objs[x])
  {
    hide Contents;
  }

  lemma InsertedLive(s: State, t: State, th: Ref, level: nat, r: Ref)
    requires LiveHeap(s) && OpenLists(s) && Inserted(s, t, th, level, r) && Alive(s, th)
    ensures LiveHeap(t)
  {
    forall x ensures Alive(s, x) ==> Alive(t, x) {}
    assert AllAlive(s, Refs(s, s.objs[th]));
    assert s.objs[th].stack[level] in Refs(s, s.objs[th]);
    forall x <- t.objs ensures if x == r then Refs(t, t.objs[x]) == [s.objs[th].stack[level]]
                               else Refs(t, t.objs[x]) == Refs(s, s.objs[x])
    {
      InsertedRefs(s, t, th, level, r, x);
    }
    hide Refs;
    assert AliveValue(t, s.objs[th].stack[level]);
    assert AllAlive(t, [s.objs[th].stack[level]]);
    LiveTransfer(s, t);
  }

  lemma InsertedPhase(s: State, t: State, th: Ref, level: nat, r: Ref)
    requires Inv(s) && Inserted(s, t, th, level, r)
    ensures PhaseInv(t)
  {
    hide RootListBut, StringTable, Colors;
    Aspects(s, {});
    InsertedWhites(s, t, th, level, r);
    match s.g.phase
    case Propagate => InsertedTriColor(s, t, th, level, r);
    case _ => { hide Inserted, OpenLists, LiveHeap; }
  }

  lemma InsertedWhites(s: State, t: State, th: Ref, level: nat, r: Ref)
    requires Inserted(s, t, th, level, r)
    ensures forall x :: CurWhite(s, x) ==> CurWhite(t, x)
    ensures CurWhite(t, r) && t.g == s.g.(uvhead := t.g.uvhead, tmp := t.g.tmp)
    ensures t.objs.Keys == s.objs.Keys + {r} && t.mark.Keys == t.objs.Keys
    ensures forall x <- t.objs :: x == r || x == th || t.objs[x] == s.objs[x]
    ensures t.objs[th].Thread? && th in s.objs && s.objs[th].Thread?
  {
    hide OpenList;
  }

  lemma InsertedTriColor(s: State, t: State, th: Ref, level: nat, r: Ref)
    requires NoDead(s) && TriColor(s) && OpenLists(s) && LiveHeap(s) && Inserted(s, t, th, level, r)
    ensures NoDead(t) && TriColor(t)
  {
    hide Refs, Done, OpenLists, Distinct, Disjoint;
    LeafGrayLists(s, t, r);
    hide ListsGray, GrayListed;
    assert Later(s) <= Later(t);
    forall x <- t.mark | !IsWhite(t, x)
      ensures x in t.gray || x in Later(t) || Done(t, x)
    {
      if x !in s.gray && x !in Later(s) { InsertedDone(s, t, th, level, r, x); }
    }
  }

  lemma InsertedDone(s: State, t: State, th: Ref, level: nat, r: Ref, x: Ref)
    requires OpenLists(s) && Inserted(s, t, th, level, r)
    requires x in s.objs && AllAlive(s, Refs(s, s.objs[x])) && x !in s.weak && Done(s, x)
    ensures Done(t, x)
  {
    InsertedRefs(s, t, th, level, r, x);
    hide Refs;
  }

  lemma InsertedInv(s: State, t: State, th: Ref, level: nat, r: Ref)
    requires Inv(s) && Inserted(s, t, th, level, r) && Alive(s, th)
    ensures Inv(t)
  {
    hide RootListBut, OpenLists, LiveHeap, PhaseInv, StringTable;
    Aspects(s, {});
    InsertedOpenLists(s, t, th, level, r);
    InsertedLive(s, t, th, level, r);
    InsertedPhase(s, t, th, level, r);
    InsertedRest(s, t, th, level, r);
  }

  lemma InsertedRest(s: State, t: State, th: Ref, level: nat, r: Ref)
    requires Structure(s) && Colors(s) && Inserted(s, t, th, level, r)
    ensures RootListBut(t, {}) && StringTable(t) && Colors(t)
  {
    hide StringTable, OpenLists, Distinct, Disjoint, OpenList;
    InsertedWhites(s, t, th, level, r);
    InsertedOpen(s, t, th, level, r);
    InsertedColors(s, t, th, level, r);
    hide Inserted, Colors;
    assert SameStrings(s, t);
    StringTableSame(s, t);
  }

  lemma InsertedOpen(s: State, t: State, th: Ref, level: nat, r: Ref)
    requires Inserted(s, t, th, level, r)
    ensures r !in s.objs && t.objs[r].Open?
  {}

  lemma InsertedColors(s: State, t: State, th: Ref, level: nat, r: Ref)
    requires Colors(s) && Inserted(s, t, th, level, r)
    ensures Colors(t)
  {
    hide OpenList;
  }

  lemma FindUpvalInv(s: State, level: nat, r: Ref)
    requires Inv(s) && r !in s.objs
    requires var th := s.g.running; th in s.objs && s.objs[th].Thread? && level < |s.objs[th].stack|
    ensures Capturable(s) && Inv(FindUpval(s, level, r))
  {
    hide RootListBut, StringTable, PhaseInv;
    Aspects(s, {});
    var th := s.g.running;
    var l := s.objs[th].open;
    assert OpenList(s, th);
    assert Capturable(s) by {
      forall u <- l ensures u in s.objs && s.objs[u].Open? {
        var j :| 0 <= j < |l| && l[j] == u;
      }
    }
    var i := Above(s, l, level);
    if i < |l| && s.objs[l[i]].level == level {
      CaptureOld(s, l[i]);
    } else {
      hide OpenLists, LiveHeap;
      InsertedOrder(s, level, r);
      RunningAlive(s);
      InsertedInv(s, FindUpval(s, level, r), th, level, r);
    }
  }

  lemma RunningAlive(s: State)
    requires LiveHeap(s)
    ensures Alive(s, s.g.running)
  {}

  lemma CaptureOld(s: State, u: Ref)
    requires Inv(s) && u in s.objs && s.objs[u].Open? && s.objs[u].thread == s.g.running
    requires s.g.running in s.objs && s.objs[s.g.running].Thread? && s.objs[u].level < |s.objs[s.g.running].stack|
    ensures s.mark.Keys == s.objs.Keys && Inv(Revive(s, u))
  {
    hide RootListBut, StringTable, PhaseInv;
    Aspects(s, {});
    var th := s.g.running;
    assert AllAlive(s, Refs(s, s.objs[th]));
    assert s.objs[th].stack[s.objs[u].level] in Refs(s, s.objs[th]);
    assert Refs(s, s.objs[u]) == [s.objs[th].stack[s.objs[u].level]];
    if IsDead(s, u) { NoDeadPhase(s, u); }
    ReviveInv(s, u);
  }

  /** At most one open upvalue per stack slot: it is what a capture finds. */
  lemma CaptureFinds(s: State, u: Ref, q: Ref)
    requires Capturable(s) && OpenList(s, s.g.running) && u in s.objs[s.g.running].open
    ensures s.objs[u].Open? && Captured(s, s.objs[u].level, q) == u
  {
    var l := s.objs[s.g.running].open;
    var k :| 0 <= k < |l| && l[k] == u;
    var i := Above(s, l, s.objs[u].level);
    assert forall j :: 0 <= j < k ==> s.objs[l[j]].level > s.objs[u].level;
    assert i == k;
  }

  /** Two captures of the same live local give the same upvalue, and it has the
      value of the local. */
  lemma CaptureShared(s: State, level: nat, r: Ref, q: Ref)
    requires Inv(s) && r !in s.objs
    requires var th := s.g.running; th in s.objs && s.objs[th].Thread? && level < |s.objs[th].stack|
    ensures Capturable(s) && Inv(FindUpval(s, level, r)) && Capturable(FindUpval(s, level, r))
    ensures var t := FindUpval(s, level, r); var u := Captured(s, level, r);
            && Captured(t, level, q) == u && u in t.objs && t.objs[u] == Open(s.g.running, level)
            && UpvalValue(t, t.objs[u]) == s.objs[s.g.running].stack[level]
  {
    hide RootListBut, StringTable, PhaseInv, LiveHeap, Colors, OpenLists, FindUpval, UpvalValue;
    FindUpvalInv(s, level, r);
    var t := FindUpval(s, level, r);
    Aspects(s, {});
    Aspects(t, {});
    Lists(s);
    FoundThere(s, level, r);
    Lists(t);
    hide OpenList;
    CaptureFinds(t, Captured(s, level, r), q);
    OpenValue(t, Captured(s, level, r));
  }

  lemma OpenValue(t: State, u: Ref)
    requires u in t.objs && t.objs[u].Open?
    requires var th := t.objs[u].thread; th in t.objs && t.objs[th].Thread? && t.objs[u].level < |t.objs[th].stack|
    ensures UpvalValue(t, t.objs[u]) == t.objs[t.objs[u].thread].stack[t.objs[u].level]
  {}

  /** The upvalue captured is on the list of the thread. */
  lemma FoundThere(s: State, level: nat, r: Ref)
    requires Inv(s) && Capturable(s) && OpenList(s, s.g.running) && r !in s.objs && level < |s.objs[s.g.running].stack|
    ensures var t := FindUpval(s, level, r); var u := Captured(s, level, r); var th := s.g.running;
            && t.mark.Keys == t.objs.Keys && t.g.running == th && th in t.objs && t.objs[th].Thread? && t.objs[th].stack == s.objs[th].stack
            && u in t.objs[th].open && u in t.objs && t.objs[u] == Open(th, level)
  {
    hide Inv;
    var l := s.objs[s.g.running].open;
    var i := Above(s, l, level);
    if !(i < |l| && s.objs[l[i]].level == level) {
      InsertedOrder(s, level, r);
    }
  }

  lemma Lists(s: State)
    requires OpenLists(s) && s.mark.Keys == s.objs.Keys && s.g.running in s.objs && s.objs[s.g.running].Thread?
    ensures Capturable(s) && OpenList(s, s.g.running)
  {
    var l := s.objs[s.g.running].open;
    assert OpenList(s, s.g.running);
    forall u <- l ensures u in s.objs && s.objs[u].Open? {
      var j :| 0 <= j < |l| && l[j] == u;
    }
  }
}
