/** The main theorem about generated code, and what follows for a value put into
    a register and for a condition. */
module CodeRuns {
  import opened CodeVm
  import opened CodeTree
  import opened CodeGen
  import opened CodeLists
  import opened CodeState
  import opened CodeExits
  import opened CodeDischarge
  import opened CodeClose
  import opened CodeOperand
  import opened CodeTests
  import opened CodeNegation
  import opened CodeCorrect

  /** The registers that matter are those in use. */
  ghost predicate InUse(x: Ctx, n: nat) {
    forall r: nat :: r in x.live <==> r < n
  }

  /** The code up to the front of the expression is part of the final code. */
  ghost predicate FrontFit(final: seq<Instr>, s: Fs, e: Exp) {
    Front(s, e) >= 0 && Fits(final, s.code[..Front(s, e)])
  }

  lemma {:induction false} OutAgree(env: Env, e: Expr, p: Regs, q: Regs, log: seq<Event>, held: Option<Value>, k: seq<Value>, n: nat)
    requires LocalsBelow(e, n) && forall r: nat :: r < n ==> Get(p, r) == Get(q, r)
    ensures Out(env, e, p, log, held, k) == Out(env, e, q, log, held, k)
    decreases e
  {
    match e
    case ENot(a) => OutAgree(env, a, p, q, log, held, k, n);
    case ELogic(op, a, b) =>
      OutAgree(env, a, p, q, log, held, k, n);
      var o := Out(env, a, p, log, held, k);
      var w := Go(ShapeOf(a), o.x, op);
      if w.Through? { OutAgree(env, b, p, q, o.log, w.held, TestedConst(ShapeOf(a), op, Consts(a, k)), n); }
    case ECompare(op, a, b) =>
      OutAgree(env, a, p, q, log, held, k, n);
      var o := Out(env, a, p, log, held, k);
      var k1 := Consts(a, k);
      OutAgree(env, b, p, q, o.log, StillHeld(a, k1, o.x), OperandConsts(a, k1), n);
    case _ =>
  }

  lemma FrontFits(final: seq<Instr>, s: Fs, e: Exp, t: Fs, f: Exp)
    requires Since(s, e, t, f) && Fits(final, t.code[..Front(t, f)])
    ensures Fits(final, s.code[..Front(s, e)])
  {
    var c := t.code[..Front(t, f)];
    assert Fits(c, s.code[..Front(s, e)]);
    FitsTrans(final, c, s.code[..Front(s, e)]);
  }

  lemma WholeFits(final: seq<Instr>, s: Fs, e: Exp)
    requires Inert(e.k) && Fits(final, s.code[..Front(s, e)])
    ensures Fits(final, s.code)
  {
    assert s.code[..|s.code|] == s.code;
  }

  // ---- Leaves -------------------------------------------------------------

  lemma SimpleRuns(x: Ctx, s: Fs, e: Expr, held: Option<Value>, log: seq<Event>)
    requires Ready(s) && Leaf(e) && LocalsBelow(e, s.nactvar) && !e.EGlobal? && !e.ECall?
    requires InUse(x, s.freereg) && At(x, s, held, log) && Consts(e, s.k) <= x.env.k
    ensures var (t, f) := Compiled(s, e); Exits(x, t, f, Out(x.env, e, x.regs, log, held, s.k))
  {
    hide Paired, ListOk;
    SimpleLeaf(s, e);
    var (t, f) := Compiled(s, e);
    var v := Out(x.env, e, x.regs, log, held, s.k).x.v;
    forall regs | Agree(x, regs) ensures Yields(x.env, t.code, f.k, regs, log) == Result(v, log) {
      if e.ELocal? { assert e.r in x.live; }
    }
    if LeavesBy(x, s.code, s.jpc, held, log) {
      var j: nat, regs :| j in s.jpc && Takes(x, s.code, j, regs, held, log);
      assert Takes(x, t.code, j, regs, held, log);
      assert Leaves(x, t.code, t.jpc, held, log, f.k, Result(v, log));
    } else {
      var regs :| Gets(x, |s.code|, regs, log) && Yields(x.env, s.code, VTrue, regs, log) == Result(Bool(true), log);
      assert Falls(x, t.code, Front(t, f), log, f.k, Result(v, log));
    }
  }

  lemma GlobalRuns(x: Ctx, s: Fs, g: nat, held: Option<Value>, log: seq<Event>)
    requires Ready(s) && At(x, s, held, log)
    requires Fits(x.code, Emit(s, GetGlobal(0, g)).code[..|s.code|])
    ensures var (t, f) := Compiled(s, EGlobal(g)); Exits(x, t, f, Out(x.env, EGlobal(g), x.regs, log, held, s.k))
  {
    hide Paired, ListOk, Fits, Emit;
    LandsAt(x, s, GetGlobal(0, g), held, log);
    var regs :| Gets(x, |s.code|, regs, log) && Yields(x.env, s.code, VTrue, regs, log) == Result(Bool(true), log);
    var (t, f) := Compiled(s, EGlobal(g));
    GlobalGood(s, g);
    var o := Out(x.env, EGlobal(g), x.regs, log, held, s.k);
    assert Yields(x.env, t.code, f.k, regs, log) == Result(o.x.v, o.log);
    assert Falls(x, t.code, Front(t, f), log, f.k, Result(o.x.v, o.log));
  }

  lemma CallRuns(x: Ctx, s: Fs, g: nat, held: Option<Value>, log: seq<Event>)
    requires Ready(s) && At(x, s, held, log) && InUse(x, s.freereg)
    requires Fits(x.code, CallCode(s, g).code)
    ensures var (t, f) := Compiled(s, ECall(g)); Exits(x, t, f, Out(x.env, ECall(g), x.regs, log, held, s.k))
  {
    hide Paired, ListOk, Emit, At;
    CallGood(s, g);
    var n := |s.code|;
    CallCodes(x.code, s, g);
    LandsAt(x, s, GetGlobal(s.freereg, g), held, log);
    hide Fits;
    var regs :| Gets(x, n, regs, log) && Yields(x.env, s.code, VTrue, regs, log) == Result(Bool(true), log);
    var (t, f) := Compiled(s, ECall(g));
    hide CallCode, Good, Since;
    CallSteps(x, s, t, g, regs, log);
    assert Out(x.env, ECall(g), x.regs, log, held, s.k).x.held == None;
  }

  /** Fetching the function and calling it. */
  lemma CallSteps(x: Ctx, s: Fs, t: Fs, g: nat, regs: Regs, log: seq<Event>)
    requires Gets(x, |s.code|, regs, log) && InUse(x, s.freereg) && |t.code| == |s.code| + 2
    requires |s.code| + 1 < |x.code| && x.code[|s.code|] == GetGlobal(s.freereg, g) && x.code[|s.code| + 1] == Call(s.freereg)
    ensures var r := Eval(x.env, ECall(g), x.regs, log); Ends(x, t, Exp(VNonReloc(s.freereg), [], []), r.v, None, r.log)
  {
    var n := |s.code|;
    var fr := s.freereg;
    assert x.(live := x.live) == x;
    Advances(x, n, regs, log, x.live);
    var d := Step(x.env, x.code, Conf(n, regs, log)).value;
    Advances(x, n + 1, d.regs, d.log, x.live);
    var d2 := Step(x.env, x.code, d).value;
    var r := Eval(x.env, ECall(g), x.regs, log);
    assert d2.pc == |t.code| && Get(d2.regs, fr) == r.v && d2.log == r.log;
    hide Agree;
    HoldsAt(x, t, fr, d2.regs, r.v, r.log);
  }

  lemma CallCodes(final: seq<Instr>, s: Fs, g: nat)
    requires Ready(s) && Fits(final, CallCode(s, g).code)
    ensures var n := |s.code|; var fr := s.freereg;
            && n + 1 < |final| && final[n] == GetGlobal(fr, g) && final[n + 1] == Call(fr) && |CallCode(s, g).code| == n + 2
            && Fits(final, Emit(s, GetGlobal(fr, g)).code[..n])
  {
    hide Paired;
    var n, fr := |s.code|, s.freereg;
    var i := GetGlobal(fr, g);
    ReadyLists(s);
    EmitGood(s, Nothing, i, VTrue);
    var s1 := Emit(s, i);
    EmitGood(s1, Nothing, Call(fr), VTrue);
    var s2 := Emit(s1, Call(fr));
    hide Emit;
    assert s1.code[..|s1.code|] == s1.code;
    FitsTrans(final, s2.code, s1.code);
    Settled(final, s1.code, n);
    Settled(final, s2.code, n + 1);
    EmitFits(final, s, i);
  }

  // ---- Comparisons --------------------------------------------------------

  /** What an operand was found to be is still so later. */
  lemma OperandStays(x: Ctx, f: Exp, v: Value, g: Exp, w: Value)
    requires GetRk(x.env, WithOperand(x, f, v).regs, RkOf(f)) == v
    requires var y := WithOperand(x, f, v); g.k.VNonReloc? && g.k.r in y.live ==> Get(y.regs, g.k.r) == w
    requires f.k.VK? || f.k.VNonReloc?
    ensures var z := WithOperand(WithOperand(x, f, v), g, w); GetRk(z.env, z.regs, RkOf(f)) == v
  {}

  lemma CompareEmits(x: Ctx, z: Ctx, u: Fs, op: CompareOp, p: Rk, q: Rk, v: Value, w: Value, held: Option<Value>, log: seq<Event>)
    requires Ready(u) && At(z, u, held, log)
    requires z == x.(regs := z.regs, live := z.live) && x.live <= z.live && forall r <- x.live :: Get(z.regs, r) == Get(x.regs, r)
    requires GetRk(z.env, z.regs, p) == v && (p.R? ==> p.r in z.live)
    requires GetRk(z.env, z.regs, q) == w && (q.R? ==> q.r in z.live)
    requires Fits(x.code, CondJump(u, CompareInstr(op, p, q)).0.code[..|u.code|])
    ensures var (t, _) := CondJump(u, CompareInstr(op, p, q)); var l := log + [Question(op, v, w)];
            Exits(x, t, Exp(VJmp(|t.code| - 1), [], []), Outcome(On(Answer(x.env, op, l), None), l))
  {
    hide Paired, ListOk, Fits, Emit, At, Agree;
    var i := CompareInstr(op, p, q);
    TestGood(u, i);
    EmitSame(u, i);
    hide CondJump, Since, Good;
    LandsAt(z, u, i, held, log);
    var regs :| Gets(z, |u.code|, regs, log) && Yields(z.env, u.code, VTrue, regs, log) == Result(Bool(true), log);
    var (t, _) := CondJump(u, i);
    var f := Exp(VJmp(|t.code| - 1), [], []);
    var l := log + [Question(op, v, w)];
    AgreeLess(x, z, regs, p, q);
    assert Gets(x, |u.code|, regs, log);
    YieldsCompare(x.env, t.code, f.k.pc, op, p, q, v, w, regs, log);
    hide CompareInstr, Gets, Yields, Question, Answer;
    assert Falls(x, t.code, Front(t, f), log, f.k, Result(Answer(x.env, op, l), l));
  }

  lemma YieldsCompare(env: Env, code: seq<Instr>, pc: nat, op: CompareOp, p: Rk, q: Rk, v: Value, w: Value, regs: Regs, log: seq<Event>)
    requires 1 <= pc < |code| && code[pc - 1] == CompareInstr(op, p, q)
    requires GetRk(env, regs, p) == v && GetRk(env, regs, q) == w
    ensures var l := log + [Question(op, v, w)]; Yields(env, code, VJmp(pc), regs, log) == Result(Answer(env, op, l), l)
  {}

  lemma AgreeLess(x: Ctx, z: Ctx, regs: Regs, p: Rk, q: Rk)
    requires Agree(z, regs) && x.live <= z.live && forall r <- x.live :: Get(z.regs, r) == Get(x.regs, r)
    requires (p.R? ==> p.r in z.live) && (q.R? ==> q.r in z.live)
    ensures Agree(x, regs)
    ensures GetRk(z.env, regs, p) == GetRk(z.env, z.regs, p) && GetRk(z.env, regs, q) == GetRk(z.env, z.regs, q)
  {}

  lemma EmitSame(u: Fs, i: Instr)
    ensures CondJump(u, i).0.code[..|u.code|] == Emit(u, i).code[..|u.code|]
  {}

  // ---- The theorem --------------------------------------------------------

  /** Control that comes to the code of an expression leaves it as `Out` says,
      with the same effects on the world in the same order, whatever the code that
      follows and wherever the jumps on the lists will be sent. */
  lemma {:induction false} GenRuns(x: Ctx, s: Fs, e: Expr, held: Option<Value>, log: seq<Event>)
    requires Ready(s) && LocalsBelow(e, s.nactvar) && InUse(x, s.freereg) && At(x, s, held, log)
    requires var (t, f) := Compiled(s, e); FrontFit(x.code, t, f) && t.k <= x.env.k
    ensures var (t, f) := Compiled(s, e); Exits(x, t, f, Out(x.env, e, x.regs, log, held, s.k))
    decreases e
  {
    hide Fits, ListOk, Paired, Since, Good, ShapeIs, At, Exits, Emit;
    match e
    case ENot(a) =>
      GenGood(s, a);
      NotStep(x, s, a);
      GenRuns(x, s, a, held, log);
      NotRuns(x, s, a, held, log);
    case ELogic(op, a, b) =>
      GenGood(s, a);
      var (s1, e1) := Compiled(s, a);
      LogicStep(x, s, op, a, b);
      GenRuns(x, s, a, held, log);
      var o := Out(x.env, a, x.regs, log, held, s.k);
      var (s2, e2) := GoIf(s1, e1, op);
      FirstRuns(x, s, op, a, o);
      var w := Go(ShapeOf(a), o.x, op);
      if w.Through? {
        GenRuns(x, s2, b, w.held, o.log);
        LogicRuns(x, s, op, a, b, Out(x.env, b, x.regs, o.log, w.held, s2.k));
      } else {
        LogicAway(x, s, op, a, b, w.carry, o.log);
      }
    case ECompare(op, a, b) =>
      GenGood(s, a);
      var (s1, e1) := Compiled(s, a);
      CompareStep(x, s, op, a, b);
      GenRuns(x, s, a, held, log);
      var o := Out(x.env, a, x.regs, log, held, s.k);
      var (s2, e2) := ExpToRk(s1, e1);
      OperandRuns(x, s, a, o);
      var y := WithOperand(x, e2, Delivered(o.x));
      var h := StillHeld(a, s1.k, o.x);
      GenRuns(y, s2, b, h, o.log);
      CompareRuns2(x, s, op, a, b, held, log);
    case EGlobal(g) =>
      GlobalGood(s, g);
      GlobalRuns(x, s, g, held, log);
    case ECall(g) =>
      CallGood(s, g);
      var (t, f) := Compiled(s, e);
      WholeFits(x.code, t, f);
      CallRuns(x, s, g, held, log);
    case _ =>
      GenGood(s, e);
      SimpleRuns(x, s, e, held, log);
  }

  lemma NotStep(x: Ctx, s: Fs, a: Expr)
    requires Ready(s) && LocalsBelow(a, s.nactvar) && var (t, f) := Compiled(s, a); Sound(s, a, t, f)
    requires var (t, f) := Compiled(s, ENot(a)); FrontFit(x.code, t, f) && t.k <= x.env.k
    ensures var (t, f) := Compiled(s, a); FrontFit(x.code, t, f) && t.k <= x.env.k
  {
    hide Fits, ListOk, Paired, Since, ShapeIs;
    var (t1, f1) := Compiled(s, a);
    SinceActive(s, Nothing, t1, f1);
    NotGood(s, a);
    var (t, f) := CodeNot(t1, f1);
    CodeNotGood(t1, f1, ShapeOf(a));
    GoodEdge(t1, f1);
    FrontFits(x.code, t1, f1, t, f);
  }

  lemma NotRuns(x: Ctx, s: Fs, a: Expr, held: Option<Value>, log: seq<Event>)
    requires Ready(s) && var (t, f) := Compiled(s, a); Sound(s, a, t, f) && Exits(x, t, f, Out(x.env, a, x.regs, log, held, s.k))
    requires InUse(x, s.freereg)
    requires var (t, f) := Compiled(s, ENot(a)); FrontFit(x.code, t, f) && t.k <= x.env.k
    ensures var (t, f) := Compiled(s, ENot(a)); Exits(x, t, f, Out(x.env, ENot(a), x.regs, log, held, s.k))
  {
    hide Fits, ListOk, Paired, Since, ShapeIs, Exits;
    var (t1, f1) := Compiled(s, a);
    SinceActive(s, Nothing, t1, f1);
    NotGood(s, a);
    CodeNotRuns(x, t1, f1, ShapeOf(a), Out(x.env, a, x.regs, log, held, s.k));
  }

  lemma LogicStep(x: Ctx, s: Fs, op: bool, a: Expr, b: Expr)
    requires Ready(s) && LocalsBelow(ELogic(op, a, b), s.nactvar) && var (t, f) := Compiled(s, a); Sound(s, a, t, f)
    requires var (t, f) := Compiled(s, ELogic(op, a, b)); FrontFit(x.code, t, f) && t.k <= x.env.k
    ensures var (s1, e1) := Compiled(s, a); var (s2, e2) := GoIf(s1, e1, op); var (s4, e4) := Compiled(s2, b);
            && FrontFit(x.code, s1, e1) && s1.k <= x.env.k
            && Ready(s2) && s2.freereg == s.freereg && s2.nactvar == s.nactvar && Fits(x.code, s2.code) && s2.k <= x.env.k
            && Sound(s2, b, s4, e4) && FrontFit(x.code, s4, e4) && s4.k <= x.env.k
            && s2.k == TestedConst(ShapeOf(a), op, Consts(a, s.k))
  {
    hide Fits, ListOk, Paired, Since, ShapeIs, GoIf, Compiled, Gen, Emit;
    var (s1, e1) := Compiled(s, a);
    SinceActive(s, Nothing, s1, e1);
    GoIfGood(s1, e1, op, ShapeOf(a));
    var (s2, e2) := GoIf(s1, e1, op);
    SinceActive(s1, e1, s2, e2.(k := VTrue));
    GenGood(s2, b);
    LogicGood(s, op, a, b);
    var (s4, e4) := Compiled(s2, b);
    SinceActive(s2, Nothing, s4, e4);
    GoodEdge(s1, e1);
    FrontFits(x.code, s2, Nothing, s4, e4);
    WholeFits(x.code, s2, Nothing);
    FrontFits(x.code, s1, e1, s2, e2.(k := VTrue));
  }

  lemma FirstRuns(x: Ctx, s: Fs, op: bool, a: Expr, o: Outcome)
    requires Ready(s) && InUse(x, s.freereg) && var (t, f) := Compiled(s, a); Sound(s, a, t, f) && Exits(x, t, f, o)
    requires var (s1, e1) := Compiled(s, a); var (t, _) := GoIf(s1, e1, op); Fits(x.code, t.code) && t.k <= x.env.k
    ensures var (s1, e1) := Compiled(s, a); var (t, f) := GoIf(s1, e1, op);
            Goes(x, t, f, op, Go(ShapeOf(a), o.x, op), o.log)
  {
    hide Fits, ListOk, Paired, Since, ShapeIs, Exits;
    var (s1, e1) := Compiled(s, a);
    SinceActive(s, Nothing, s1, e1);
    GoIfRuns(x, s1, e1, op, ShapeOf(a), o);
  }

  /** The second operand decides. */
  lemma LogicRuns(x: Ctx, s: Fs, op: bool, a: Expr, b: Expr, o: Outcome)
    requires Ready(s) && LocalsBelow(ELogic(op, a, b), s.nactvar) && var (t, f) := Compiled(s, a); Sound(s, a, t, f)
    requires var (s1, e1) := Compiled(s, a); var (s2, _) := GoIf(s1, e1, op); var (t, f) := Compiled(s2, b);
             Sound(s2, b, t, f) && Exits(x, t, f, o)
    ensures var (t, f) := Compiled(s, ELogic(op, a, b)); Exits(x, t, f, o)
  {
    hide Fits, ListOk, Paired, Since, ShapeIs, GoIf, Compiled, Ends, LeavesBy;
    LogicGood(s, op, a, b);
    var (s1, e1) := Compiled(s, a);
    var (s2, e2) := GoIf(s1, e1, op);
    var (s4, e4) := Compiled(s2, b);
    MoreExits(x, s4, e4, !op, ListOf(e2, !op), o);
  }

  lemma MoreExits(x: Ctx, s: Fs, e: Exp, truth: bool, l: seq<nat>, o: Outcome)
    requires Good(s, e) && Exits(x, s, e, o)
    ensures Exits(x, s, SetList(e, truth, ListOf(e, truth) + l), o)
  {
    var g := SetList(e, truth, ListOf(e, truth) + l);
    if o.x.By? {
      assert SameList(s.code, s.code, ListOf(e, o.x.truth));
      LeavesLater(x, s.code, s.code, ListOf(e, o.x.truth), ListOf(g, o.x.truth), o.x.carry, o.log, VTrue, Result(Bool(true), o.log));
    } else {
      if o.x.held.None? && exists log0 :: Falls(x, s.code, Front(s, e), log0, e.k, Result(o.x.v, o.log)) {
        var log0 :| Falls(x, s.code, Front(s, e), log0, e.k, Result(o.x.v, o.log));
        assert Falls(x, s.code, Front(s, g), log0, g.k, Result(o.x.v, o.log));
      }
    }
  }

  /** The first operand decides. */
  lemma LogicAway(x: Ctx, s: Fs, op: bool, a: Expr, b: Expr, c: Option<Value>, log: seq<Event>)
    requires Ready(s) && LocalsBelow(ELogic(op, a, b), s.nactvar) && var (t, f) := Compiled(s, a); Sound(s, a, t, f)
    requires var (s1, e1) := Compiled(s, a); var (s2, e2) := GoIf(s1, e1, op); var (t, f) := Compiled(s2, b);
             Sound(s2, b, t, f) && LeavesBy(x, s2.code, ListOf(e2, !op), c, log)
    ensures var (t, f) := Compiled(s, ELogic(op, a, b)); Exits(x, t, f, Outcome(By(!op, c), log))
  {
    hide Fits, ListOk, Paired, Since, ShapeIs, GoIf, Compiled, Good, Takes;
    LogicGood(s, op, a, b);
    var (s1, e1) := Compiled(s, a);
    var (s2, e2) := GoIf(s1, e1, op);
    var (s4, e4) := Compiled(s2, b);
    var f := SetList(e4, !op, ListOf(e4, !op) + ListOf(e2, !op));
    hide SameList;
    LeavesLater(x, s2.code, s4.code, ListOf(e2, !op), ListOf(f, !op), c, log, VTrue, Result(Bool(true), log));
  }

  lemma CompareStep(x: Ctx, s: Fs, op: CompareOp, a: Expr, b: Expr)
    requires Ready(s) && LocalsBelow(ECompare(op, a, b), s.nactvar) && var (t, f) := Compiled(s, a); Sound(s, a, t, f)
    requires var (t, f) := Compiled(s, ECompare(op, a, b)); FrontFit(x.code, t, f) && t.k <= x.env.k
    ensures var (s1, e1) := Compiled(s, a); var (s2, e2) := ExpToRk(s1, e1); var (s3, e3) := Compiled(s2, b);
            && FrontFit(x.code, s1, e1) && s1.k <= x.env.k
            && Good(s1, e1) && Base(s1, e1) == s.freereg >= s1.nactvar
            && Ready(s2) && s2.nactvar == s.nactvar && Fits(x.code, s2.code) && s2.k <= x.env.k
            && OperandKind(s2, e2, s.freereg) && s2.k == OperandConsts(a, s1.k)
            && Sound(s2, b, s3, e3) && FrontFit(x.code, s3, e3) && s3.k <= x.env.k
  {
    hide Fits, ListOk, Paired, Since, ShapeIs, Emit, ExpToRk, CondJump;
    var (s1, e1) := Compiled(s, a);
    SinceActive(s, Nothing, s1, e1);
    ExpToRkGood(s1, e1);
    OperandConstsAre(s1, a, e1);
    var (s2, e2) := ExpToRk(s1, e1);
    SinceActive(s1, e1, s2, Nothing);
    GenGood(s2, b);
    var (s3, e3) := Compiled(s2, b);
    SinceActive(s2, Nothing, s3, e3);
    SecondGood(x, s, op, a, b);
    GoodEdge(s3, e3);
    FrontFits(x.code, s2, Nothing, s3, e3);
    WholeFits(x.code, s2, Nothing);
    GoodEdge(s1, e1);
    FrontFits(x.code, s1, e1, s2, Nothing);
  }

  /** The second operand in place. */
  lemma SecondGood(x: Ctx, s: Fs, op: CompareOp, a: Expr, b: Expr)
    requires Ready(s) && LocalsBelow(ECompare(op, a, b), s.nactvar) && var (t, f) := Compiled(s, a); Sound(s, a, t, f)
    requires var (s1, e1) := Compiled(s, a); var (s2, e2) := ExpToRk(s1, e1); var (s3, e3) := Compiled(s2, b);
             Sound(s2, b, s3, e3) && OperandKind(s2, e2, s.freereg) && s2.nactvar == s.nactvar && Ready(s2)
    requires var (t, f) := Compiled(s, ECompare(op, a, b)); FrontFit(x.code, t, f) && t.k <= x.env.k
    ensures var (s1, e1) := Compiled(s, a); var (s2, e2) := ExpToRk(s1, e1); var (s3, e3) := Compiled(s2, b);
            var (s4, e4) := ExpToRk(s3, e3); var u := FreeExp(FreeExp(s4, e4), e2);
            && Fits(x.code, s3.code[..Front(s3, e3)]) && s3.k <= x.env.k
            && Fits(x.code, s4.code) && s4.k <= x.env.k && OperandKind(s4, e4, s2.freereg) && Ready(u)
            && u == s4.(freereg := s.freereg)
            && Compiled(s, ECompare(op, a, b)) == (CondJump(u, CompareInstr(op, RkOf(e2), RkOf(e4))).0, Exp(VJmp(|u.code| + 1), [], []))
            && |Compiled(s, ECompare(op, a, b)).0.code| == |u.code| + 2
            && Fits(x.code, CondJump(u, CompareInstr(op, RkOf(e2), RkOf(e4))).0.code[..|u.code|])
  {
    hide Fits, ListOk, Paired, Since, ShapeIs, Emit, ExpToRk, CondJump, Compiled;
    var (s1, e1) := Compiled(s, a);
    var (s2, e2) := ExpToRk(s1, e1);
    var (s3, e3) := Compiled(s2, b);
    SinceActive(s2, Nothing, s3, e3);
    ExpToRkGood(s3, e3);
    var (s4, e4) := ExpToRk(s3, e3);
    SinceActive(s3, e3, s4, Nothing);
    CompareForm(s, op, a, b, s.freereg);
    var u := FreeExp(FreeExp(s4, e4), e2);
    assert u == s4.(freereg := s.freereg);
    TestGood(u, CompareInstr(op, RkOf(e2), RkOf(e4)));
    var (t, f) := Compiled(s, ECompare(op, a, b));
    FrontFits(x.code, u, Nothing, t, f);
    WholeFits(x.code, u, Nothing);
    GoodEdge(s3, e3);
    SinceFree(s3, e3, s4, Nothing, u);
    FrontFits(x.code, s3, e3, u, Nothing);
  }

  lemma OperandRuns(x: Ctx, s: Fs, a: Expr, o: Outcome)
    requires Ready(s) && InUse(x, s.freereg) && var (t, f) := Compiled(s, a); Sound(s, a, t, f) && Exits(x, t, f, o)
    requires var (s1, e1) := Compiled(s, a); Good(s1, e1) && Base(s1, e1) == s.freereg >= s1.nactvar
    requires var (s1, e1) := Compiled(s, a); var (t, f) := ExpToRk(s1, e1);
             Fits(x.code, t.code) && t.k <= x.env.k && OperandKind(t, f, s.freereg) && t.nactvar == s.nactvar
    ensures var (s1, e1) := Compiled(s, a); var (t, f) := ExpToRk(s1, e1); var y := WithOperand(x, f, Delivered(o.x));
            && At(y, t, StillHeld(a, s1.k, o.x), o.log) && InUse(y, t.freereg)
            && GetRk(y.env, y.regs, RkOf(f)) == Delivered(o.x)
            && (forall r <- x.live :: Get(y.regs, r) == Get(x.regs, r)) && x.live <= y.live
            && (RkOf(f).R? ==> RkOf(f).r in y.live)
  {
    hide Fits, ListOk, Paired, Since, ShapeIs, Exits, At, ExpToRk, Compiled, Good, Consts, Out;
    var (s1, e1) := Compiled(s, a);
    OperandConstsAre(s1, a, e1);
    ExpToRkRuns(x, s1, e1, o);
  }

  lemma CompareRuns2(x: Ctx, s: Fs, op: CompareOp, a: Expr, b: Expr, held: Option<Value>, log: seq<Event>)
    requires Ready(s) && LocalsBelow(ECompare(op, a, b), s.nactvar) && InUse(x, s.freereg)
    requires var (t, f) := Compiled(s, a); Sound(s, a, t, f)
    requires var (t, f) := Compiled(s, ECompare(op, a, b)); FrontFit(x.code, t, f) && t.k <= x.env.k
    requires var (s1, e1) := Compiled(s, a); var (s2, e2) := ExpToRk(s1, e1); var (s3, e3) := Compiled(s2, b);
             Sound(s2, b, s3, e3) && OperandKind(s2, e2, s.freereg) && s2.nactvar == s.nactvar && Ready(s2)
             && s2.k == OperandConsts(a, s1.k)
    requires var (s1, e1) := Compiled(s, a); var (s2, e2) := ExpToRk(s1, e1); var (s3, e3) := Compiled(s2, b);
             var o := Out(x.env, a, x.regs, log, held, s.k);
             var y := WithOperand(x, e2, Delivered(o.x));
             && InUse(y, s2.freereg) && GetRk(y.env, y.regs, RkOf(e2)) == Delivered(o.x)
             && (forall r <- x.live :: Get(y.regs, r) == Get(x.regs, r)) && x.live <= y.live
             && (RkOf(e2).R? ==> RkOf(e2).r in y.live)
             && Exits(y, s3, e3, Out(y.env, b, y.regs, o.log, StillHeld(a, s1.k, o.x), s2.k))
    ensures var (t, f) := Compiled(s, ECompare(op, a, b)); Exits(x, t, f, Out(x.env, ECompare(op, a, b), x.regs, log, held, s.k))
  {
    hide Fits, ListOk, Paired, Since, ShapeIs, Exits, At, ExpToRk, CondJump, Compiled, Emit, Out;
    var (s1, e1) := Compiled(s, a);
    var (s2, e2) := ExpToRk(s1, e1);
    var (s3, e3) := Compiled(s2, b);
    var (s4, e4) := ExpToRk(s3, e3);
    SecondGood(x, s, op, a, b);
    var o := Out(x.env, a, x.regs, log, held, s.k);
    var y := WithOperand(x, e2, Delivered(o.x));
    var h := StillHeld(a, s1.k, o.x);
    var o2 := Out(y.env, b, y.regs, o.log, h, s2.k);
    forall r: nat | r < s.nactvar ensures Get(y.regs, r) == Get(x.regs, r) { assert r in x.live; }
    OutAgree(x.env, b, x.regs, y.regs, o.log, h, s2.k, s.nactvar);
    SinceActive(s2, Nothing, s3, e3);
    ExpToRkRuns(y, s3, e3, o2);
    var z := WithOperand(y, e4, Delivered(o2.x));
    OperandStays(x, e2, Delivered(o.x), e4, Delivered(o2.x));
    var u := FreeExp(FreeExp(s4, e4), e2);
    AtRegs(z, s4, u, OperandHeld(s3, e3, o2), o2.log);
    CompareEmits(x, z, u, op, RkOf(e2), RkOf(e4), Delivered(o.x), Delivered(o2.x), OperandHeld(s3, e3, o2), o2.log);
    CompareOut(x, s, op, a, b, held, log);
  }

  lemma AtRegs(x: Ctx, s: Fs, u: Fs, held: Option<Value>, log: seq<Event>)
    requires At(x, s, held, log) && u == s.(freereg := u.freereg)
    ensures At(x, u, held, log)
  {}

  /** `Out`, for a comparison. */
  lemma CompareOut(x: Ctx, s: Fs, op: CompareOp, a: Expr, b: Expr, held: Option<Value>, log: seq<Event>)
    requires var (t, f) := Compiled(s, a); Sound(s, a, t, f)
    ensures var (s1, _) := Compiled(s, a);
            var o := Out(x.env, a, x.regs, log, held, s.k);
            var o2 := Out(x.env, b, x.regs, o.log, StillHeld(a, s1.k, o.x), OperandConsts(a, s1.k));
            var l := o2.log + [Question(op, Delivered(o.x), Delivered(o2.x))];
            Out(x.env, ECompare(op, a, b), x.regs, log, held, s.k) == Outcome(On(Answer(x.env, op, l), None), l)
  {
    hide Good, Since, ShapeIs, Compiled;
  }
}
