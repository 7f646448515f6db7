/** Negation (`codenot`): the lists change roles and lose their values. */
module CodeNegation {
  import opened CodeVm
  import opened CodeTree
  import opened CodeGen
  import opened CodeLists
  import opened CodeState
  import opened CodeExits
  import opened CodeClose
  import opened CodeOperand
  import opened CodeTests

  function NotShape(s: Shape): Shape {
    if s.SNil? || s.SFalse? then STrue
    else if s.STrue? || s.SNum? || s.SStr? then SFalse
    else if s.SJump? then SJump
    else SNot
  }

  /** `codenot` before the values are taken away. */
  function Negated(s: Fs, e: Exp): (Fs, Kind) {
    match e.k
    case VNil => (s, VTrue)
    case VFalse => (s, VTrue)
    case VK(_) => (s, VFalse)
    case VKNum(_) => (s, VFalse)
    case VTrue => (s, VFalse)
    case VJmp(pc) => (InvertJump(s, pc), e.k)
    case _ =>
      var (s3, e3) := DischargeToAnyReg(s, e);
      var s4 := FreeExp(s3, e3);
      (Emit(s4, Not(0, if e3.k.VNonReloc? then e3.k.r else 0)), VReloc(|s4.code|))
  }

  function Stripped(s: Fs, e: Exp): Fs {
    s.(code := RemoveValues(RemoveValues(s.code, e.t), e.f))
  }

  lemma CodeNotForm(s: Fs, e: Exp)
    requires Discharged(e.k)
    ensures var (u, k) := Negated(s, e); CodeNot(s, e) == (Stripped(u, e), Exp(k, e.f, e.t))
  {
    DischargeTwice(s, e);
    hide InvertJump, Emit, RemoveValues, DischargeToAnyReg;
  }

  // ---- Taking values away -------------------------------------------------

  lemma StrippedGood(u: Fs, k: Kind, t: seq<nat>, f: seq<nat>)
    requires Good(u, Exp(k, t, f))
    ensures var e := Exp(k, t, f); var w := Stripped(u, e);
            && Good(w, Exp(k, f, t)) && Since(u, e, w, Exp(k, f, t))
            && w == u.(code := w.code) && |w.code| == |u.code|
            && (forall j <- t + f :: !Valued(w.code, j))
            && SameList(u.code, w.code, u.jpc)
            && (forall i: nat {:trigger w.code[i]} :: i < |u.code| && !u.code[i].TestSet? ==> w.code[i] == u.code[i])
            && Fits(w.code, u.code)
  {
    var e := Exp(k, t, f);
    var c := u.code;
    var p := RemoveValues(c, t);
    var q := RemoveValues(p, f);
    RemoveValuesSpec(c, t);
    RemovedFits(c, p, t);
    RemoveValuesSpec(p, f);
    RemovedFits(p, q, f);
    FitsTrans(q, p, c);
    StrippedSame(c, p, q, t, f);
    StrippedLists(c, p, q, t, f, u.jpc);
    GoodEdge(u, e);
    var n := Front(u, e);
    StrippedEdge(u, e);
    FitsCut(q, c, n);
    assert Paired(q) by {
      forall i: nat | i < |q| && q[i].TestSet? ensures i + 1 < |q| && q[i + 1].Jmp? { assert c[i] == c[i]; assert c[i + 1].Jmp?; }
    }
    var w := Stripped(u, e);
    forall i: nat | i < n && i !in Owned(u, e) && !(i + 1 in Owned(u, e) && c[i].TestSet?) ensures w.code[i] == c[i] {
      assert p[i] == c[i];
    }
    assert forall i: nat {:trigger w.code[i]} :: i < |c| && !c[i].TestSet? ==> w.code[i] == c[i];
    assert forall i: nat {:trigger w.code[i]} :: i < |c| && c[i].TestSet? ==> !w.code[i].Jmp?;
    StrippedLost(u, e, w, k);
    hide NoneLost, Removed, Fits;
  }

  lemma StrippedLost(u: Fs, e: Exp, w: Fs, k: Kind)
    requires Good(u, e) && w == u.(code := w.code) && |w.code| == |u.code| && k == e.k
    requires forall i: nat {:trigger w.code[i]} :: i < |u.code| && !u.code[i].TestSet? ==> w.code[i] == u.code[i]
    requires forall i: nat {:trigger w.code[i]} :: i < |u.code| && u.code[i].TestSet? ==> !w.code[i].Jmp?
    ensures NoneLost(u, e, w, Exp(k, e.f, e.t))
  {
    PendingFront(u, e);
    hide Good;
    assert Owned(w, Exp(k, e.f, e.t)) == Owned(u, e);
    hide Owned;
    forall j: nat | Pending(w.code, j) ensures Pending(u.code, j) { assert w.code[j] == w.code[j]; }
  }

  lemma StrippedEdge(u: Fs, e: Exp)
    requires Good(u, e)
    ensures var n := Front(u, e); n == |u.code| || n == 0 || !u.code[n - 1].TestSet?
  {
    GoodEdge(u, e);
  }

  lemma StrippedSame(c: seq<Instr>, p: seq<Instr>, q: seq<Instr>, t: seq<nat>, f: seq<nat>)
    requires Removed(c, p, t) && Removed(p, q, f)
    ensures forall i: nat :: i < |c| && !c[i].TestSet? ==> q[i] == c[i]
    ensures forall i: nat {:trigger q[i]} :: i < |c| && c[i].TestSet? ==>
              q[i] == if i + 1 in t || i + 1 in f then Test(c[i].b, c[i].c) else c[i]
  {
    forall i: nat | i < |c| ensures !c[i].TestSet? ==> q[i] == c[i] {
      assert p[i] == p[i];
    }
    forall i: nat | i < |c| && c[i].TestSet?
      ensures q[i] == if i + 1 in t || i + 1 in f then Test(c[i].b, c[i].c) else c[i]
    {
      assert p[i] == p[i];
    }
  }

  lemma StrippedLists(c: seq<Instr>, p: seq<Instr>, q: seq<Instr>, t: seq<nat>, f: seq<nat>, m: seq<nat>)
    requires Removed(c, p, t) && Removed(p, q, f) && ListOk(c, m) && Apart(t, m) && Apart(f, m)
    ensures SameList(c, q, m)
    ensures forall j <- t + f :: !Valued(q, j)
  {
    StrippedSame(c, p, q, t, f);
    forall j <- m
      ensures Pending(q, j) && (Valued(q, j) <==> Valued(c, j)) && (Valued(c, j) ==> q[j - 1] == c[j - 1])
    {
      assert Pending(c, j);
      assert q[j] == c[j];
      if j >= 1 { assert q[j - 1] == q[j - 1]; }
    }
    forall j <- t + f ensures !Valued(q, j) {
      if 1 <= j <= |q| { assert q[j - 1] == q[j - 1]; }
    }
  }

  // ---- codenot ------------------------------------------------------------

  lemma NegatedGood(s: Fs, e: Exp, shape: Shape)
    requires Good(s, e) && Base(s, e) >= s.nactvar && ShapeIs(s, e.k, shape)
    ensures var (u, k) := Negated(s, e); var g := e.(k := k);
            && Good(u, g) && Since(s, e, u, g) && Base(u, g) == Base(s, e) && u.k == s.k
            && ShapeIs(u, k, NotShape(shape))
            && SameList(s.code, u.code, e.t) && SameList(s.code, u.code, e.f)
            && (Literal(shape) ==> u == s)
  {
    hide Fits, ListOk, Paired, Emit;
    var (u, k) := Negated(s, e);
    var g := e.(k := k);
    match shape
    case SJump => InvertedGood(s, e);
    case SReg => NotGoodReg(s, e, shape);
    case SOpen => NotGoodReg(s, e, shape);
    case SNot => NotGoodReg(s, e, shape);
    case _ =>
      SinceSelf(s, e);
      SinceKind(s, e, s, e, k);
  }

  lemma InvertedGood(s: Fs, e: Exp)
    requires Good(s, e) && e.k.VJmp?
    ensures var u := InvertJump(s, e.k.pc);
            && Good(u, e) && Since(s, e, u, e) && Base(u, e) == Base(s, e) && u.k == s.k
            && SameList(s.code, u.code, e.t) && SameList(s.code, u.code, e.f)
  {
    InvertGood(s, e, true);
    var u := InvertJump(s, e.k.pc);
    var h := Left(e, true, [e.k.pc]);
    assert Since(s, e, u, h);
    InvertedPair(s, e, u);
    hide Fits;
    assert Owned(u, h) == Owned(u, e);
    InvertedSince(s, e, u);
  }

  lemma InvertedPair(s: Fs, e: Exp, u: Fs)
    requires Good(s, e) && e.k.VJmp? && u == InvertJump(s, e.k.pc)
    requires SameList(s.code, u.code, e.t) && SameList(s.code, u.code, e.f) && Ready(u)
    ensures Good(u, e)
  {
    hide Paired, Fits;
    assert Pending(u.code, e.k.pc);
  }

  lemma InvertedSince(s: Fs, e: Exp, u: Fs)
    requires Good(s, e) && e.k.VJmp? && u == InvertJump(s, e.k.pc)
    ensures Since(s, e, u, e)
  {
    GoodEdge(s, e);
    var n := Front(s, e);
    hide Good, Fits;
    assert s.code[..n] == u.code[..n];
    assert Fits(u.code, s.code[..n]) by {
      FitsMore(u.code[..n], u.code[n..]);
      assert u.code == u.code[..n] + u.code[n..];
    }
  }

  lemma NotGoodReg(s: Fs, e: Exp, shape: Shape)
    requires Good(s, e) && Base(s, e) >= s.nactvar && ShapeIs(s, e.k, shape) && (shape.SReg? || shape.SOpen? || shape.SNot?)
    ensures var (u, k) := Negated(s, e); var g := e.(k := k);
            && Good(u, g) && Since(s, e, u, g) && Base(u, g) == Base(s, e) && u.k == s.k
            && ShapeIs(u, k, SNot)
            && SameList(s.code, u.code, e.t) && SameList(s.code, u.code, e.f)
  {
    hide Fits, ListOk, Paired, Emit, Since, SameList;
    AnyRegGood(s, e, shape);
    var (s3, e3) := DischargeToAnyReg(s, e);
    var s4 := FreeExp(s3, e3);
    var i := Not(0, e3.k.r);
    var k := VReloc(|s4.code|);
    EmitGood(s4, e3, i, k);
    assert e3.(k := k) == e.(k := k);
    SinceTrans(s, e, s4, e3, Emit(s4, i), e.(k := k));
    SameListTrans(s.code, s4.code, Emit(s4, i).code, e.t);
    SameListTrans(s.code, s4.code, Emit(s4, i).code, e.f);
  }

  lemma CodeNotGood(s: Fs, e: Exp, shape: Shape)
    requires Good(s, e) && Base(s, e) >= s.nactvar && ShapeIs(s, e.k, shape)
    ensures var (t, f) := CodeNot(s, e);
            && Good(t, f) && Since(s, e, t, f) && Base(t, f) == Base(s, e) && t.k == s.k
            && ShapeIs(t, f.k, NotShape(shape)) && f.t == e.f && f.f == e.t
  {
    hide Fits, ListOk, Paired, Since, Negated, SameList;
    CodeNotForm(s, e);
    NegatedGood(s, e, shape);
    var (u, k) := Negated(s, e);
    StrippedGood(u, k, e.t, e.f);
    var (t, f) := CodeNot(s, e);
    assert e.(k := k) == Exp(k, e.t, e.f);
    SinceTrans(s, e, u, e.(k := k), t, f);
  }

  // ---- Running ------------------------------------------------------------

  lemma CodeNotRuns(x: Ctx, s: Fs, e: Exp, shape: Shape, o: Outcome)
    requires Good(s, e) && Base(s, e) >= s.nactvar && ShapeIs(s, e.k, shape) && Exits(x, s, e, o)
    requires forall r <- x.live :: r < Base(s, e)
    requires var (t, f) := CodeNot(s, e); Front(t, f) >= 0 && Fits(x.code, t.code[..Front(t, f)]) && t.k <= x.env.k
    ensures var (t, f) := CodeNot(s, e); Exits(x, t, f, Outcome(Negate(shape, o.x), o.log))
  {
    hide Fits, ListOk, Paired, Since, Negated, SameList, Ends, LeavesBy;
    CodeNotForm(s, e);
    NegatedGood(s, e, shape);
    var (u, k) := Negated(s, e);
    StrippedGood(u, k, e.t, e.f);
    var (t, f) := CodeNot(s, e);
    match o.x
    case By(b, c) =>
      RemovedBy(x, s, u, t, ListOf(e, b), c, o.log);
    case On(v, held) =>
      NegatedFits(x.code, u, k, e, t);
      if Literal(shape) {
        LiteralNegated(x, s, e, t, f, shape, v, held, o.log);
      } else {
        NegatedRuns(x, s, e, shape, v, held, o.log);
        FallsStripped(x, u, e.(k := k), t, f, Bool(IsFalse(v)), o.log);
      }
  }

  lemma RemovedBy(x: Ctx, s: Fs, u: Fs, t: Fs, l: seq<nat>, c: Option<Value>, log: seq<Event>)
    requires LeavesBy(x, s.code, l, c, log) && SameList(s.code, u.code, l) && forall j <- l :: !Valued(t.code, j)
    ensures LeavesBy(x, t.code, l, None, log)
  {
    LeavesLater(x, s.code, u.code, l, l, c, log, VTrue, Result(Bool(true), log));
    LeavesRemoved(x, u.code, t.code, l, c, log);
  }

  lemma NegatedFits(final: seq<Instr>, u: Fs, k: Kind, e: Exp, t: Fs)
    requires Good(u, e.(k := k)) && Fits(t.code, u.code) && |t.code| == |u.code|
    requires var n := Front(t, Exp(k, e.f, e.t)); n >= 0 && Fits(final, t.code[..n])
    ensures var n := Front(u, e.(k := k)); n >= 0 && Fits(final, u.code[..n])
  {
    var g := e.(k := k);
    GoodEdge(u, g);
    StrippedEdge(u, g);
    var n := Front(u, g);
    FitsCut(t.code, u.code, n);
    assert Fits(t.code[..n], u.code[..n]);
    FitsTrans(final, t.code[..n], u.code[..n]);
  }

  lemma LiteralNegated(x: Ctx, s: Fs, e: Exp, t: Fs, f: Exp, shape: Shape, v: Value, held: Option<Value>, log: seq<Event>)
    requires Ends(x, s, e, v, held, log) && Literal(shape) && ShapeIs(s, e.k, shape) && s.k <= x.env.k
    requires t.jpc == s.jpc && |t.code| == |s.code| && SameList(s.code, t.code, s.jpc)
    requires ShapeIs(t, f.k, NotShape(shape))
    ensures Ends(x, t, f, Bool(IsFalse(v)), held, log)
  {
    var w := Bool(IsFalse(v));
    if held.None? && exists log0 :: Falls(x, s.code, Front(s, e), log0, e.k, Result(v, log)) {
      var log0 :| Falls(x, s.code, Front(s, e), log0, e.k, Result(v, log));
      var regs :| Gets(x, |s.code|, regs, log0) && Yields(x.env, s.code, e.k, regs, log0) == Result(v, log);
      assert Yields(x.env, t.code, f.k, regs, log0) == Result(w, log);
      assert Falls(x, t.code, Front(t, f), log0, f.k, Result(w, log));
    } else {
      var j: nat, regs :| j in s.jpc && Takes(x, s.code, j, regs, held, log) && Yields(x.env, s.code, e.k, regs, log) == Result(v, log);
      assert Takes(x, t.code, j, regs, held, log);
      assert Yields(x.env, t.code, f.k, regs, log) == Result(w, log);
    }
  }

  /** The value can be had at the front of the code. */
  ghost predicate Fronts(x: Ctx, s: Fs, e: Exp, v: Value, log: seq<Event>) {
    exists log0 :: Falls(x, s.code, Front(s, e), log0, e.k, Result(v, log))
  }

  lemma FallsStripped(x: Ctx, u: Fs, g: Exp, t: Fs, f: Exp, v: Value, log: seq<Event>)
    requires Fronts(x, u, g, v, log) && f.k == g.k && |t.code| == |u.code|
    requires KindGood(u, g) && !Inert(g.k)
    requires forall i: nat {:trigger t.code[i]} :: i < |u.code| && !u.code[i].TestSet? ==> t.code[i] == u.code[i]
    ensures Ends(x, t, f, v, None, log)
  {
    var log0 :| Falls(x, u.code, Front(u, g), log0, g.k, Result(v, log));
    var regs :| Gets(x, Front(u, g), regs, log0) && Yields(x.env, u.code, g.k, regs, log0) == Result(v, log);
    if g.k.VJmp? { assert t.code[g.k.pc - 1] == u.code[g.k.pc - 1]; } else { assert t.code[g.k.pc] == u.code[g.k.pc]; }
    assert Yields(x.env, t.code, f.k, regs, log0) == Result(v, log);
    assert Falls(x, t.code, Front(t, f), log0, f.k, Result(v, log));
  }

  lemma NegatedRuns(x: Ctx, s: Fs, e: Exp, shape: Shape, v: Value, held: Option<Value>, log: seq<Event>)
    requires Good(s, e) && Base(s, e) >= s.nactvar && ShapeIs(s, e.k, shape) && !Literal(shape)
    requires Ends(x, s, e, v, held, log) && forall r <- x.live :: r < Base(s, e)
    requires var (u, k) := Negated(s, e); var n := Front(u, e.(k := k)); n >= 0 && Fits(x.code, u.code[..n]) && u.k <= x.env.k
    ensures var (u, k) := Negated(s, e); Fronts(x, u, e.(k := k), Bool(IsFalse(v)), log)
  {
    hide Fits, ListOk, Paired, Emit;
    var (u, k) := Negated(s, e);
    if e.k.VJmp? {
      var pc := e.k.pc;
      var log0 :| Falls(x, s.code, Front(s, e), log0, e.k, Result(v, log));
      var regs :| Gets(x, pc - 1, regs, log0) && Yields(x.env, s.code, e.k, regs, log0) == Result(v, log);
      assert Yields(x.env, u.code, k, regs, log0) == Result(Bool(IsFalse(v)), log);
      assert Falls(x, u.code, Front(u, e.(k := k)), log0, k, Result(Bool(IsFalse(v)), log));
    } else {
      NotRegRuns(x, s, e, shape, v, held, log);
    }
  }

  lemma NotRegRuns(x: Ctx, s: Fs, e: Exp, shape: Shape, v: Value, held: Option<Value>, log: seq<Event>)
    requires Good(s, e) && Base(s, e) >= s.nactvar && ShapeIs(s, e.k, shape) && !Literal(shape) && !e.k.VJmp?
    requires Ends(x, s, e, v, held, log) && forall r <- x.live :: r < Base(s, e)
    requires var (u, k) := Negated(s, e); Fits(x.code, u.code[..|u.code| - 1]) && u.k <= x.env.k
    ensures var (u, k) := Negated(s, e); Fronts(x, u, e.(k := k), Bool(IsFalse(v)), log)
  {
    hide Fits, ListOk, Paired, Emit, Since, SameList, Ends;
    var (u, k) := Negated(s, e);
    AnyRegGood(s, e, shape);
    var (s3, e3) := DischargeToAnyReg(s, e);
    var s4 := FreeExp(s3, e3);
    var i := Not(0, e3.k.r);
    EmitGood(s4, e3, i, k);
    EmitFirst(x.code, s4, e3, i);
    AnyRegRuns(x, s, e, v, held, log);
    var h :| Ends(x, s4, Exp(e3.k, [], []), v, h, log);
    LandsEnd(x, s4, Exp(e3.k, [], []), i, v, h, log);
    var regs :| Gets(x, |s4.code|, regs, log) && Yields(x.env, s4.code, e3.k, regs, log) == Result(v, log);
    assert Yields(x.env, u.code, k, regs, log) == Result(Bool(IsFalse(v)), log);
    assert Falls(x, u.code, Front(u, e.(k := k)), log, k, Result(Bool(IsFalse(v)), log));
  }

  lemma EmitFirst(final: seq<Instr>, s: Fs, e: Exp, i: Instr)
    requires ListsGood(s, e) && Fits(final, Emit(s, i).code[..|Emit(s, i).code| - 1])
    ensures Fits(final, Emit(s, i).code[..|s.code|]) && Fits(final, s.code)
  {
    EmitSpec(s, i);
    FitsTrans(final, Emit(s, i).code[..|s.code|], s.code);
  }
}
