/** What a program can read, field by field, and what of it is kept: the two
    notions of reachability in terms of the fields of objects. */
module GcReads {
  import opened GcHeap
  import opened GcInvariant
  import opened GcMutator
  import opened GcMachine
  import opened GcKeep
  import opened GcSafety

  /** The program, or the C code that runs it, gets `v` from object `r`. */
  ghost predicate Reads(s: State, r: Ref, v: Value) {
    r in s.objs &&
    match s.objs[r]
    case Str(_) => false
    case Udata(meta, env) => v == Gc(env) || (meta.Some? && v == Gc(meta.value))
    case Open(th, level) =>
      if th in s.objs && s.objs[th].Thread? && level < |s.objs[th].stack| then v == s.objs[th].stack[level]
      else v == Nil
    case Closed(val) => v == val
    case Func(refs) => exists i :: 0 <= i < |refs| && v == refs[i]
    case Proto(consts) => exists i :: 0 <= i < |consts| && v == consts[i]
    case Table(mt, _, arr, nodes) =>
      || (mt.Some? && v == Gc(mt.value))
      || (exists i :: 0 <= i < |arr| && v == arr[i])
      || exists i :: 0 <= i < |nodes| && !nodes[i].val.Nil? && (v == nodes[i].key || v == nodes[i].val)
    case Thread(gt, stack, _) => v == gt || exists i :: 0 <= i < |stack| && v == stack[i]
  }

  /** The letters in the `__mode` of the metatable of table `o`. */
  predicate HasMode(s: State, o: Obj, key: bool)
    requires o.Table?
  {
    match o.mt
    case None => false
    case Some(m) => m in s.objs && s.objs[m].Table? && (if key then s.objs[m].mode.0 else s.objs[m].mode.1)
  }

  /** Object `r` keeps `v` alive: all that can be read from it, but for the keys
      of a table with weak keys and the values of one with weak values. */
  ghost predicate Keeps(s: State, r: Ref, v: Value) {
    r in s.objs &&
    var o := s.objs[r];
    if !o.Table? then Reads(s, r, v)
    else
      || (o.mt.Some? && v == Gc(o.mt.value))
      || (!HasMode(s, o, false) && exists i :: 0 <= i < |o.arr| && v == o.arr[i])
      || exists i :: 0 <= i < |o.nodes| && !o.nodes[i].val.Nil?
           && ((!HasMode(s, o, true) && v == o.nodes[i].key) || (!HasMode(s, o, false) && v == o.nodes[i].val))
  }

  // ---- The references of the model are these --------------------------------

  lemma ContentsExactly(o: Obj, kw: bool, vw: bool, v: Value)
    requires o.Table?
    ensures v in Contents(o, kw, vw) <==>
            || (!vw && exists i :: 0 <= i < |o.arr| && v == o.arr[i])
            || exists i :: 0 <= i < |o.nodes| && !o.nodes[i].val.Nil?
                 && ((!kw && v == o.nodes[i].key) || (!vw && v == o.nodes[i].val))
  {
    NodeRefsMember(o.nodes, kw, vw, v);
    if n :| n in o.nodes && !n.val.Nil? && ((!kw && v == n.key) || (!vw && v == n.val)) {
      var i :| 0 <= i < |o.nodes| && o.nodes[i] == n;
    }
  }

  lemma RefsExactly(s: State, r: Ref, v: Value)
    requires r in s.objs
    ensures v in Refs(s, s.objs[r]) <==> Reads(s, r, v)
    ensures v in StrongRefs(s, s.objs[r]) <==> Keeps(s, r, v)
  {
    hide Contents;
    var o := s.objs[r];
    if o.Table? {
      ContentsExactly(o, false, false, v);
      ContentsExactly(o, HasMode(s, o, true), HasMode(s, o, false), v);
    }
  }

  // ---- Reachability ---------------------------------------------------------

  /** What is at hand without going through an object: the main thread, the one
      that runs, the registry, the metatables of the basic types, and what C
      code has in its variables. */
  ghost predicate AtHand(s: State, m: iset<Ref>) {
    && s.g.main in m && s.g.running in m && (s.g.registry.Gc? ==> s.g.registry.ref in m)
    && (forall i :: 0 <= i < |s.g.mts| && s.g.mts[i].Some? ==> s.g.mts[i].value in m)
    && forall r <- s.g.tmp :: r in m
  }

  ghost predicate ReadClosed(s: State, m: iset<Ref>) {
    AtHand(s, m) && forall r, q :: r in m && Reads(s, r, Gc(q)) ==> q in m
  }

  ghost predicate KeepClosed(s: State, m: iset<Ref>) {
    AtHand(s, m) && forall r, q :: r in m && Keeps(s, r, Gc(q)) ==> q in m
  }

  lemma RootsAtHand(s: State, m: iset<Ref>)
    ensures AtHand(s, m) <==> forall r :: Root(s, r) ==> r in m
  {
    if AtHand(s, m) {
      forall r | Root(s, r) ensures r in m {
        if Some(r) in s.g.mts { var i :| 0 <= i < |s.g.mts| && s.g.mts[i] == Some(r); }
      }
    }
    if forall r :: Root(s, r) ==> r in m {
      assert Root(s, s.g.main) && Root(s, s.g.running);
      if s.g.registry.Gc? { assert Root(s, s.g.registry.ref); }
      forall i | 0 <= i < |s.g.mts| && s.g.mts[i].Some? ensures s.g.mts[i].value in m {
        assert Some(s.g.mts[i].value) == s.g.mts[i];
        assert Root(s, s.g.mts[i].value);
      }
      forall r <- s.g.tmp ensures r in m { assert Root(s, r); }
    }
  }

  lemma {:induction false} PathWithin(s: State, p: seq<Ref>, m: iset<Ref>)
    requires Path(s, p) && ReadClosed(s, m)
    ensures p[|p| - 1] in m
    decreases |p|
  {
    hide Reads, Refs;
    RootsAtHand(s, m);
    if |p| > 1 {
      var q := p[..|p| - 1];
      PathWithin(s, q, m);
      var x, y := p[|p| - 2], p[|p| - 1];
      assert q[|q| - 1] == x && p[|p| - 2 + 1] == y;
      RefsExactly(s, x, Gc(y));
    }
  }

  /** Reachable is what is at hand and what can be read, step by step, from
      there: whatever contains the former and is closed under reading. */
  lemma ReachableExactly(s: State, r: Ref)
    ensures Reachable(s, r) <==> forall m: iset<Ref> :: ReadClosed(s, m) ==> r in m
  {
    hide Reads, Refs;
    if Reachable(s, r) {
      var p :| Path(s, p) && p[|p| - 1] == r;
      forall m: iset<Ref> | ReadClosed(s, m) ensures r in m { PathWithin(s, p, m); }
    } else {
      var m := iset x | Reachable(s, x);
      forall x | Root(s, x) ensures x in m { RootReachable(s, x); }
      RootsAtHand(s, m);
      forall x, q | x in m && Reads(s, x, Gc(q)) ensures q in m {
        ReadsThere(s, x, Gc(q));
        RefsExactly(s, x, Gc(q));
        ReachableStep(s, x, q);
      }
      assert ReadClosed(s, m) && r !in m;
    }
  }

  lemma ReadsThere(s: State, r: Ref, v: Value)
    ensures Reads(s, r, v) ==> r in s.objs
    ensures Keeps(s, r, v) ==> r in s.objs
  {}

  lemma ReachableStep(s: State, r: Ref, q: Ref)
    requires Reachable(s, r) && r in s.objs && Gc(q) in Refs(s, s.objs[r])
    ensures Reachable(s, q)
  {
    hide Refs;
    var p :| Path(s, p) && p[|p| - 1] == r;
    var p' := p + [q];
    forall i | 0 <= i < |p'| - 1 ensures p'[i] in s.objs && Gc(p'[i + 1]) in Refs(s, s.objs[p'[i]]) {
      if i < |p| - 1 { assert p'[i] == p[i] && p'[i + 1] == p[i + 1]; }
    }
    assert Path(s, p') && p'[|p'| - 1] == q;
  }

  /** Strongly reachable is the same with keeping in the place of reading. */
  lemma StronglyExactly(s: State, r: Ref)
    ensures StrongReachable(s, r) <==> forall m: iset<Ref> :: KeepClosed(s, m) ==> r in m
  {
    hide Keeps, StrongRefs;
    if StrongReachable(s, r) {
      forall m: iset<Ref> | KeepClosed(s, m) ensures r in m {
        RootsAtHand(s, m);
        forall x, q | x in m && x in s.objs && Gc(q) in StrongRefs(s, s.objs[x]) ensures q in m {
          RefsExactly(s, x, Gc(q));
        }
        var p :| StrongPath(s, p) && p[|p| - 1] == r;
        StrongPathIn(s, p, m);
      }
    } else {
      var m := iset x | StrongReachable(s, x);
      forall x | Root(s, x) ensures x in m { RootStrong(s, x); }
      RootsAtHand(s, m);
      forall x, q | x in m && Keeps(s, x, Gc(q)) ensures q in m {
        ReadsThere(s, x, Gc(q));
        RefsExactly(s, x, Gc(q));
        StrongStep(s, x, q);
      }
      assert KeepClosed(s, m) && r !in m;
    }
  }

  // ---- Reading is safe ------------------------------------------------------

  /** In every state of every run, what the program reads from an object it can
      reach is a value that is not an object, or an object that it can reach,
      and that has been neither freed nor found dead. */
  lemma ReadSafe(states: seq<State>, i: nat, r: Ref, v: Value)
    requires Run(states) && i < |states| && Reachable(states[i], r) && Reads(states[i], r, v) && v.Gc?
    ensures Reachable(states[i], v.ref) && v.ref in states[i].objs && !IsDead(states[i], v.ref)
  {
    hide Reachable, Run, IsDead, Reads, Refs;
    var s := states[i];
    ReadsThere(s, r, v);
    RefsExactly(s, r, v);
    ReachableStep(s, r, v.ref);
    Safety(states, i, v.ref);
  }
}
