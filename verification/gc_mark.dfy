/** Marking: `reallymarkobject` and the traversal of one gray object. */
module GcMark {
  import opened GcHeap

  // ---- What marking may do ------------------------------------------------

  /** A newly marked object is either waiting on the gray list or completely
      dealt with. */
  ghost predicate Handled(t: State, r: Ref)
    requires r in t.objs && r in t.mark
  {
    var o := t.objs[r];
    if Container(o) then t.mark[r].color.Gray? && r in t.gray
    else
      && AllMarked(t, Refs(t, o))
      && t.mark[r].color == (if o.Udata? || o.Closed? then Black else Gray)
  }

  /** `l2` is `l1` with newly marked containers added, each only once. */
  ghost predicate Grown(s: State, t: State, l1: seq<Ref>, l2: seq<Ref>) {
    && (forall x <- l1 :: x in l2)
    && (forall x <- l2 :: x in l1 || (x in s.objs && IsWhite(s, x) && IsGray(t, x) && Container(s.objs[x])))
    && (Distinct(l1) && (forall x <- l1 :: !IsWhite(s, x)) ==> Distinct(l2))
  }

  /** `t` is `s` after marking some white objects and nothing else. */
  ghost predicate Extends(s: State, t: State) {
    match s case State(_, _, _, _, _, _) =>
    && t == s.(mark := t.mark, gray := t.gray)
    && s.mark.Keys == s.objs.Keys
    && t.mark.Keys == s.mark.Keys
    && (forall r <- s.mark :: t.mark[r] == s.mark[r].(color := t.mark[r].color))
    && (forall r <- s.mark :: t.mark[r] == s.mark[r] || (s.mark[r].color.White? && !t.mark[r].color.White? && Handled(t, r)))
    && (t.mark == s.mark ==> t.gray == s.gray)
    && Grown(s, t, s.gray, t.gray)
  }

  lemma RefsSame(s: State, t: State, o: Obj)
    requires t.objs == s.objs
    ensures Refs(s, o) == Refs(t, o)
    ensures StrongRefs(s, o) == StrongRefs(t, o)
  {}

  lemma ExtendsFrame(s: State, t: State)
    requires Extends(s, t)
    ensures t == s.(mark := t.mark, gray := t.gray)
    ensures t.mark.Keys == s.mark.Keys == s.objs.Keys == t.objs.Keys
    ensures forall r <- s.mark :: !s.mark[r].color.White? ==> t.mark[r] == s.mark[r]
  {}

  lemma ExtendsMarked(s: State, t: State, vs: seq<Value>)
    requires Extends(s, t) && AllMarked(s, vs)
    ensures AllMarked(t, vs)
  {}

  lemma GrownTrans(s: State, t: State, u: State)
    requires Extends(s, t) && Extends(t, u)
    ensures Grown(s, u, s.gray, u.gray)
    ensures forall x <- t.gray :: x in u.gray
  {
    hide Handled;
  }

  lemma ExtendsTrans(s: State, t: State, u: State)
    requires Extends(s, t) && Extends(t, u)
    ensures Extends(s, u)
  {
    hide Refs, Grown;
    GrownTrans(s, t, u);
    forall r <- s.mark | u.mark[r] != s.mark[r]
      ensures s.mark[r].color.White? && !u.mark[r].color.White? && Handled(u, r)
    {
      if t.mark[r] != s.mark[r] {
        assert Handled(t, r);
        RefsSame(t, u, s.objs[r]);
      }
    }
  }

  // ---- Marking ------------------------------------------------------------

  lemma WhitesDrop(s: State, o: Ref, c: Color)
    requires IsWhite(s, o) && !c.White?
    ensures Whites(SetColor(s, o, c)) == Whites(s) - {o}
    ensures Whites(SetColor(s, o, c)) < Whites(s)
  {
    assert o in Whites(s);
  }

  lemma ExtendsWhites(s: State, t: State)
    requires Extends(s, t)
    ensures Whites(t) <= Whites(s)
  {}

  lemma LeafHandled(s: State, o: Ref)
    requires s.mark.Keys == s.objs.Keys && IsWhite(s, o)
    ensures s.objs[o].Str? ==> Extends(s, SetColor(s, o, Gray))
    ensures Container(s.objs[o]) ==> Extends(s, SetColor(s, o, Gray).(gray := [o] + s.gray))
  {
    if Container(s.objs[o]) {
      var t := SetColor(s, o, Gray).(gray := [o] + s.gray);
      assert Handled(t, o);
    }
  }

  /** `reallymarkobject`: turns white `o` gray, then by kind. */
  function ReallyMark(s: State, o: Ref): (t: State)
    requires s.mark.Keys == s.objs.Keys && IsWhite(s, o)
    ensures Extends(s, t) && !IsWhite(t, o)
    decreases Whites(s), 1
  {
    match s.objs[o]
    case Udata(_, _) => MarkUdata(s, o)
    case Closed(_) => MarkUpval(s, o)
    case Open(_, _) => MarkUpval(s, o)
    case Str(_) => LeafHandled(s, o); SetColor(s, o, Gray)
    case _ => LeafHandled(s, o); SetColor(s, o, Gray).(gray := [o] + s.gray)
  }

  /** Userdata are never gray. */
  function MarkUdata(s: State, o: Ref): (t: State)
    requires s.mark.Keys == s.objs.Keys && IsWhite(s, o) && s.objs[o].Udata?
    ensures Extends(s, t) && !IsWhite(t, o)
    decreases Whites(s), 0
  {
    var s1 := SetColor(s, o, Black);
    WhitesDrop(s, o, Black);
    var s2 := MarkOpt(s1, s.objs[o].meta);
    ExtendsWhites(s1, s2);
    var t := MarkRef(s2, s.objs[o].env);
    UdataHandled(s, s1, s2, t, o);
    t
  }

  /** A closed upvalue ends black; an open one stays gray. */
  function MarkUpval(s: State, o: Ref): (t: State)
    requires s.mark.Keys == s.objs.Keys && IsWhite(s, o) && (s.objs[o].Open? || s.objs[o].Closed?)
    ensures Extends(s, t) && !IsWhite(t, o)
    decreases Whites(s), 0
  {
    var s1 := SetColor(s, o, Gray);
    WhitesDrop(s, o, Gray);
    var s2 := MarkValue(s1, UpvalValue(s, s.objs[o]));
    UpvalHandled(s, s1, s2, o);
    if s.objs[o].Closed? then SetColor(s2, o, Black) else s2
  }

  function MarkRef(s: State, r: Ref): (t: State)
    requires s.mark.Keys == s.objs.Keys
    ensures Extends(s, t) && !IsWhite(t, r)
    decreases Whites(s), 2
  {
    if IsWhite(s, r) then ReallyMark(s, r) else s
  }

  function MarkOpt(s: State, r: Option<Ref>): (t: State)
    requires s.mark.Keys == s.objs.Keys
    ensures Extends(s, t) && AllMarked(t, OptRef(r))
    decreases Whites(s), 3
  {
    if r.Some? then MarkRef(s, r.value) else s
  }

  function MarkValue(s: State, v: Value): (t: State)
    requires s.mark.Keys == s.objs.Keys
    ensures Extends(s, t) && Marked(t, v)
    decreases Whites(s), 3
  {
    if v.Gc? then MarkRef(s, v.ref) else s
  }

  lemma UdataHandled(s: State, s2: State, s3: State, s4: State, o: Ref)
    requires s.mark.Keys == s.objs.Keys && IsWhite(s, o) && s.objs[o].Udata?
    requires s2 == SetColor(s, o, Black)
    requires Extends(s2, s3) && AllMarked(s3, OptRef(s.objs[o].meta))
    requires Extends(s3, s4) && !IsWhite(s4, s.objs[o].env)
    ensures Extends(s, s4)
  {
    hide Extends, Handled;
    ExtendsTrans(s2, s3, s4);
    ExtendsMarked(s3, s4, OptRef(s.objs[o].meta));
    ExtendsFrame(s2, s4);
    UdataDone(s, s4, o);
    assert s4.mark == s4.mark[o := s4.mark[o].(color := Black)];
    ExtendsAround(s, s2, s4, s4, o, Black, Black);
  }

  lemma UdataDone(s: State, t: State, o: Ref)
    requires t.objs == s.objs && o in t.mark && o in t.objs && t.objs[o].Udata?
    requires t.mark[o].color == Black
    requires AllMarked(t, OptRef(s.objs[o].meta)) && !IsWhite(t, s.objs[o].env)
    ensures Handled(t, o)
  {}

  lemma UpvalHandled(s: State, s1: State, s2: State, o: Ref)
    requires s.mark.Keys == s.objs.Keys && IsWhite(s, o) && (s.objs[o].Open? || s.objs[o].Closed?)
    requires s1 == SetColor(s, o, Gray)
    requires Extends(s1, s2) && Marked(s2, UpvalValue(s, s.objs[o]))
    ensures Extends(s, if s.objs[o].Closed? then SetColor(s2, o, Black) else s2)
  {
    hide Extends;
    ExtendsFrame(s1, s2);
    var c := if s.objs[o].Closed? then Black else Gray;
    var t := SetColor(s2, o, c);
    RefsSame(s, t, s.objs[o]);
    assert s2.mark == s2.mark[o := s2.mark[o].(color := Gray)];
    ExtendsAround(s, s1, s2, t, o, Gray, c);
  }

  /** Marking from `s1`, where `o` alone has left white, extends `s` once `o`
      itself is handled. */
  lemma ExtendsAround(s: State, s1: State, s2: State, t: State, o: Ref, c1: Color, c2: Color)
    requires s.mark.Keys == s.objs.Keys && IsWhite(s, o) && !Container(s.objs[o])
    requires !c1.White? && !c2.White?
    requires s1 == SetColor(s, o, c1)
    requires Extends(s1, s2)
    requires t == SetColor(s2, o, c2)
    requires Handled(t, o)
    ensures Extends(s, t)
  {
    forall r <- s.mark | t.mark[r] != s.mark[r] && r != o
      ensures s.mark[r].color.White? && !t.mark[r].color.White? && Handled(t, r)
    {
      assert Handled(s2, r);
      RefsSame(s2, t, s.objs[r]);
    }
  }

  /** Marks a list of values from the first to the last. */
  function MarkAll(s: State, vs: seq<Value>): (t: State)
    requires s.mark.Keys == s.objs.Keys
    ensures Extends(s, t) && AllMarked(t, vs)
    decreases |vs|
  {
    if vs == [] then s else
      var s1 := MarkValue(s, vs[0]);
      var t := MarkAll(s1, vs[1..]);
      ExtendsTrans(s, s1, t);
      t
  }
}
