/** The model's program is free to do what Lua programs do: whatever objects it can
    reach, these actions on them are operations of a run. */
module GcAllowed {
  import opened GcHeap
  import opened GcInvariant
  import opened GcBarrier
  import opened GcClose
  import opened GcMutator
  import opened GcWrites
  import opened GcMachine
  import opened GcSafety
  import opened GcReads
  import opened GcEffects

  lemma KeysAre(s: State)
    requires Inv(s)
    ensures s.mark.Keys == s.objs.Keys
  {
    hide LiveHeap, RootListBut, OpenLists, StringTable, PhaseInv;
    Aspects(s, {});
  }

  /** Table `t` can become `o` if all that can be read from `o` can be read from `t`
      or is one of the two values stored. */
  lemma StoreAllowed(s: State, t: Ref, o: Obj, k: Value, v: Value)
    requires Inv(s) && Reachable(s, t) && t in s.objs && s.objs[t].Table? && o.Table? && Usable(s, k) && Usable(s, v)
    requires forall x :: Reads(s.(objs := s.objs[t := o]), t, x) ==> Reads(s, t, x) || x == k || x == v
    ensures Enabled(s, SetTable(t, o, k, v))
  {
    hide Inv, Reachable, Reads, Refs;
    KeysAre(s);
    var w := s.(objs := s.objs[t := o]);
    forall x <- Refs(s, o) ensures x in Refs(s, s.objs[t]) || x in [k, v] {
      SameRefs(s, w, o);
      RefsExactly(w, t, x);
      RefsExactly(s, t, x);
    }
  }

  lemma SameRefs(s: State, w: State, o: Obj)
    requires o.Table?
    ensures Refs(s, o) == Refs(w, o)
  {}

  /** Setting a slot of the array part or an entry, making an entry, setting or
      removing the metatable. */
  lemma TableActions(s: State, t: Ref, i: nat, k: Value, v: Value, m: Ref)
    requires Inv(s) && Reachable(s, t) && t in s.objs && s.objs[t].Table? && Usable(s, k) && Usable(s, v) && Reachable(s, m)
    ensures var o := s.objs[t];
            && (i < |o.arr| ==> Enabled(s, SetTable(t, o.(arr := o.arr[i := v]), k, v)))
            && (i < |o.nodes| ==> Enabled(s, SetTable(t, o.(nodes := o.nodes[i := Node(k, v)]), k, v)))
            && Enabled(s, SetTable(t, o.(nodes := o.nodes + [Node(k, v)]), k, v))
            && Enabled(s, SetTable(t, o.(mt := Some(m)), Gc(m), Gc(m)))
            && Enabled(s, SetTable(t, o.(mt := None), Nil, Nil))
  {
    hide Inv, Reachable, Enabled;
    var o := s.objs[t];
    if i < |o.arr| { StoreAllowed(s, t, o.(arr := o.arr[i := v]), k, v); }
    if i < |o.nodes| { EntryReads(s, t, i, k, v); StoreAllowed(s, t, o.(nodes := o.nodes[i := Node(k, v)]), k, v); }
    NewEntryReads(s, t, k, v);
    StoreAllowed(s, t, o.(nodes := o.nodes + [Node(k, v)]), k, v);
    StoreAllowed(s, t, o.(mt := Some(m)), Gc(m), Gc(m));
    StoreAllowed(s, t, o.(mt := None), Nil, Nil);
  }

  lemma EntryReads(s: State, t: Ref, i: nat, k: Value, v: Value)
    requires t in s.objs && s.objs[t].Table? && i < |s.objs[t].nodes|
    ensures var o := s.objs[t].(nodes := s.objs[t].nodes[i := Node(k, v)]);
            forall x :: Reads(s.(objs := s.objs[t := o]), t, x) ==> Reads(s, t, x) || x == k || x == v
  {}

  lemma NewEntryReads(s: State, t: Ref, k: Value, v: Value)
    requires t in s.objs && s.objs[t].Table?
    ensures var o := s.objs[t].(nodes := s.objs[t].nodes + [Node(k, v)]);
            forall x :: Reads(s.(objs := s.objs[t := o]), t, x) ==> Reads(s, t, x) || x == k || x == v
  {}

  /** Setting a slot of a stack, pushing, assigning an upvalue, capturing a slot of the
      running function, closing from any level, going on with another thread. */
  lemma StackActions(s: State, th: Ref, i: nat, v: Value, u: Ref, r: Ref)
    requires Inv(s) && Reachable(s, th) && th in s.objs && s.objs[th].Thread? && Usable(s, v)
    ensures var o := s.objs[th];
            && (i < |o.stack| ==> Enabled(s, SetStack(th, o.gt, o.stack[i := v])))
            && Enabled(s, SetStack(th, o.gt, o.stack + [v]))
            && (Reachable(s, u) && u in s.objs && (s.objs[u].Open? || s.objs[u].Closed?) ==> Enabled(s, SetUpval(u, v)))
            && (r !in s.objs && th == s.g.running && i < |o.stack| ==> Enabled(s, Capture(r, i)))
            && Enabled(s, Close(th, i)) && Enabled(s, Resume(th))
  {
    hide Inv, Reachable;
    var o := s.objs[th];
    OpenBelow(s, th);
    forall x <- [o.gt] + o.stack ensures Usable(s, x) { ReadUsable(s, th, x); }
    assert forall x <- [o.gt] + (o.stack + [v]) :: x in [o.gt] + o.stack || x == v;
    if i < |o.stack| {
      forall x <- [o.gt] + o.stack[i := v] ensures Usable(s, x) { assert x == v || x in [o.gt] + o.stack; }
    }
  }

  lemma ReadUsable(s: State, r: Ref, v: Value)
    requires Reachable(s, r) && r in s.objs && v in Refs(s, s.objs[r])
    ensures Usable(s, v)
  {
    hide Reachable, Refs;
    if v.Gc? {
      RefsExactly(s, r, v);
      ReachableStep(s, r, v.ref);
    }
  }

  lemma OpenBelow(s: State, th: Ref)
    requires Inv(s) && th in s.objs && s.objs[th].Thread?
    ensures StackFits(s, th, |s.objs[th].stack|)
  {
    hide LiveHeap, RootListBut, StringTable, PhaseInv;
    Aspects(s, {});
    assert OpenList(s, th);
    forall u <- s.objs[th].open ensures s.objs[u].level < |s.objs[th].stack| {
      var j :| 0 <= j < |s.objs[th].open| && s.objs[th].open[j] == u;
    }
  }

  /** Returning: once the upvalues have been closed from a level on, the stack of the
      running thread can be cut there. */
  lemma ReturnAllowed(s: State, th: Ref, level: nat)
    requires Inv(s) && th == s.g.running && th in s.objs && s.objs[th].Thread? && level <= |s.objs[th].stack|
    ensures Enabled(s, Close(th, level))
    ensures var t := Do(s, Close(th, level));
            && th in t.objs && t.objs[th].Thread? && t.objs[th].stack == s.objs[th].stack
            && Enabled(t, SetStack(th, t.objs[th].gt, t.objs[th].stack[..level]))
  {
    hide Inv, Reachable;
    var op := Close(th, level);
    RootReachable(s, th);
    DoEffect(s, op);
    OpInv(s, op);
    var t := Do(s, op);
    ClosedBelow(s, t, th, level);
    OpenBelow(t, th);
    RootReachable(t, th);
    forall x <- [t.objs[th].gt] + t.objs[th].stack[..level] ensures Usable(t, x) {
      assert x in [t.objs[th].gt] + t.objs[th].stack;
      ReadUsable(t, th, x);
    }
  }

  lemma ClosedBelow(s: State, t: State, th: Ref, level: nat)
    requires ClosedFrom(s, t, th, level) && Inv(s)
    ensures forall u <- t.objs[th].open :: u in t.objs && t.objs[u].Open? ==> t.objs[u].level < level
  {
    hide LiveHeap, RootListBut, StringTable, PhaseInv;
    Aspects(s, {});
    assert OpenList(s, th);
    forall u <- t.objs[th].open | u in t.objs && t.objs[u].Open? ensures t.objs[u].level < level {
      var j :| 0 <= j < |s.objs[th].open| && s.objs[th].open[j] == u;
    }
  }

  /** Making a table, a function or prototype that refers to anything at hand, a thread
      with any stack, userdata, and strings of any bytes. */
  lemma MakeActions(s: State, r: Ref, vs: seq<Value>, v: Value, m: Ref, bytes: seq<bv8>)
    requires Inv(s) && r !in s.objs && (forall x <- vs :: Usable(s, x)) && Usable(s, v) && Reachable(s, m)
    ensures Enabled(s, New(r, Table(None, (false, false), [], [])))
    ensures Enabled(s, New(r, Func(vs))) && Enabled(s, New(r, Proto(vs)))
    ensures Enabled(s, New(r, Thread(v, vs, []))) && Enabled(s, New(r, Closed(v)))
    ensures Enabled(s, MakeUdata(r, None, m)) && Enabled(s, MakeUdata(r, Some(m), m))
    ensures Enabled(s, MakeString(r, bytes))
  {
    hide Inv, Reachable;
    assert Refs(s, Table(None, (false, false), [], [])) == [];
    assert forall x <- Refs(s, Thread(v, vs, [])) :: x == v || x in vs;
  }
}
