/** The results about generated code, stated for whole runs of the machine. */
module CodeTheorems {
  import opened CodeVm
  import opened CodeTree
  import opened CodeGen
  import opened CodeLists
  import opened CodeState
  import opened CodeExits
  import opened CodeDischarge
  import opened CodeClose
  import opened CodeOperand
  import opened CodeTests
  import opened CodeCorrect
  import opened CodeRuns
  import opened CodeExact

  /** A place where the expression can be compiled; jumps may be pending to it, as
      they are after `if a then end`. */
  ghost predicate Place(s: Fs, e: Expr) {
    Ready(s) && LocalsBelow(e, s.nactvar)
  }

  /** `luaK_exp2nextreg` on a whole expression. */
  function ValueCode(s: Fs, e: Expr): Fs {
    var (t, f) := Gen(s, e);
    ExpToNextReg(t, f).0
  }

  /** `luaK_goiftrue` or `luaK_goiffalse` on a whole expression. */
  function TestCode(s: Fs, e: Expr, truth: bool): (Fs, Exp) {
    var (t, f) := Gen(s, e);
    GoIf(t, f, truth)
  }

  /** The registers in use keep their values. */
  predicate Keeps(p: Regs, q: Regs, n: nat) {
    forall r: nat :: r < n ==> Get(q, r) == Get(p, r)
  }

  function Below(n: nat): (s: set<nat>)
    ensures forall r: nat :: r in s <==> r < n
  {
    if n == 0 then {} else Below(n - 1) + {n - 1}
  }

  lemma ValueForm(s: Fs, e: Expr)
    requires Place(s, e)
    ensures var (t, f) := Compiled(s, e); var u := t.(freereg := s.freereg + 1);
            && Good(t, f) && Good(u, f) && ValueCode(s, e) == ExpToReg(u, f, s.freereg).0
            && Ready(ValueCode(s, e)) && Since(t, f, ValueCode(s, e), Nothing)
  {
    hide Fits, ListOk, Paired, Since, Emit, CloseJumps, Gen, ExpToReg, ShapeIs, ShapeOf, Jumps, Consts;
    GenGood(s, e);
    var (r, q) := Gen(s, e);
    var (t, f) := Compiled(s, e);
    DischargeTwice(t, f);
    SinceActive(s, Nothing, t, f);
    var u := t.(freereg := s.freereg + 1);
    GoodReg(t, u, f);
    ExpToRegGood(u, f, s.freereg);
    SinceReg(t, u, f, ExpToReg(u, f, s.freereg).0, Nothing);
  }

  lemma StartAt(x: Ctx, s: Fs, regs: Regs, log: seq<Event>)
    requires x.c0 == Conf(|s.code|, regs, log) && x.regs == regs
    ensures At(x, s, None, log)
  {
    ReachesSelf(x.env, x.code, x.c0);
    assert Gets(x, |s.code|, regs, log);
    assert Yields(x.env, s.code, VTrue, regs, log) == Result(Bool(true), log);
    assert Falls(x, s.code, |s.code|, log, VTrue, Result(Bool(true), log));
  }

  // ---- Values -------------------------------------------------------------

  /** The code, followed by instruction `i` and whatever else, is part of what
      runs. */
  ghost predicate Coded(env: Env, final: seq<Instr>, s: Fs, e: Expr, i: Instr) {
    Fits(final, Emit(ValueCode(s, e), i).code) && ValueCode(s, e).k <= env.k
  }

  /** Control comes to the end of the code, with value `v` in the next register;
      the registers in use have kept theirs. */
  ghost predicate Loads(x: Ctx, s: Fs, e: Expr, v: Value, log: seq<Event>) {
    exists after: Regs ::
      && Reaches(x.env, x.code, x.c0, Conf(|ValueCode(s, e).code|, after, log))
      && Get(after, s.freereg) == v && Keeps(x.regs, after, s.freereg)
  }

  /** Once control has come to the place of an expression, in whatever way, its
      code does exactly what `Out` says. */
  lemma ValueRuns(x: Ctx, s: Fs, e: Expr, i: Instr, held: Option<Value>, log: seq<Event>)
    requires Place(s, e) && InUse(x, s.freereg) && At(x, s, held, log) && Coded(x.env, x.code, s, e, i)
    ensures var o := Out(x.env, e, x.regs, log, held, s.k); Loads(x, s, e, Delivered(o.x), o.log)
  {
    hide Fits, ListOk, Paired, Since, Emit, CloseJumps, Gen, ExpToReg, Ends, At, ValueCode, Exits;
    var n := s.freereg;
    var (t, f) := Compiled(s, e);
    var u := t.(freereg := n + 1);
    var v := ValueCode(s, e);
    ValueForm(s, e);
    EmitFits2(x.code, v, i);
    GoodEdge(t, f);
    FrontFits(x.code, t, f, v, Nothing) by { WholeCut(x.code, v); }
    GrownConsts(t, f, v);
    GenRuns(x, s, e, held, log);
    var o := Out(x.env, e, x.regs, log, held, s.k);
    ExitsReg(x, t, u, f, o);
    ExpToRegRuns(x, u, f, n, o);
    assert x.live - {n} == x.live;
    var h := if f.k == VNonReloc(n) && o.x.On? then o.x.held else None;
    LandsEnd(x, v, Exp(VNonReloc(n), [], []), i, Delivered(o.x), h, o.log);
    var after :| Gets(x, |v.code|, after, o.log) && Yields(x.env, v.code, VNonReloc(n), after, o.log) == Result(Delivered(o.x), o.log);
    forall r: nat | r < n ensures Get(after, r) == Get(x.regs, r) { assert r in x.live; }
  }

  lemma GrownConsts(t: Fs, f: Exp, v: Fs)
    requires Since(t, f, v, Nothing)
    ensures t.k <= v.k
  {}

  lemma WholeCut(final: seq<Instr>, v: Fs)
    requires Fits(final, v.code)
    ensures Fits(final, v.code[..Front(v, Nothing)])
  {
    assert v.code[..|v.code|] == v.code;
  }

  lemma EmitFits2(final: seq<Instr>, v: Fs, i: Instr)
    requires Ready(v) && Fits(final, Emit(v, i).code)
    ensures Fits(final, v.code) && Fits(final, Emit(v, i).code[..|v.code|])
  {
    EmitFits(final, v, i);
    EmitSpec(v, i);
    FitsTrans(final, Emit(v, i).code, v.code);
  }

  /** Compiling keeps the meaning: where the expression has no leak, its code puts
      its value in the next register, with the same questions to the world. */
  lemma ValueCorrect(x: Ctx, s: Fs, e: Expr, i: Instr, held: Option<Value>, log: seq<Event>)
    requires Place(s, e) && InUse(x, s.freereg) && At(x, s, held, log) && Coded(x.env, x.code, s, e, i)
    requires !Leaks(e, held.Some?, s.k, UpIn(x.regs))
    ensures var r := Eval(x.env, e, x.regs, log); Loads(x, s, e, r.v, r.log)
  {
    hide Fits, Ready, Emit, ValueCode, Leaks, Reaches, At;
    ValueRuns(x, s, e, i, held, log);
    NoLeakRight(x.env, e, x.regs, log, held, s.k);
  }

  // ---- Exactly when -------------------------------------------------------

  /** How control comes to an expression: from the instruction before it, or by a
      pending jump whose test could deliver a value. */
  datatype Entry = Start | ByPending(j: nat)

  /** With these registers the test of the jump sends control along it. */
  predicate Enters(s: Fs, n: Entry, regs: Regs) {
    match n
    case Start => true
    case ByPending(j) => j in s.jpc && Valued(s.code, j) && IsFalse(Get(regs, s.code[j - 1].b)) != s.code[j - 1].c
  }

  function HeldBy(s: Fs, n: Entry, regs: Regs): Option<Value> {
    match n
    case Start => None
    case ByPending(j) => if Valued(s.code, j) then Some(Get(regs, s.code[j - 1].b)) else None
  }

  function EntryCtx(env: Env, final: seq<Instr>, s: Fs, n: Entry, regs: Regs, log: seq<Event>): Ctx {
    Ctx(env, final, Conf(if n.Start? then |s.code| else n.j - 1, regs, log), regs, Below(s.freereg))
  }

  lemma EntryAt(env: Env, final: seq<Instr>, s: Fs, n: Entry, regs: Regs, log: seq<Event>)
    requires Ready(s) && Enters(s, n, regs) && Fits(final, s.code)
    ensures At(EntryCtx(env, final, s, n, regs, log), s, HeldBy(s, n, regs), log)
  {
    var x := EntryCtx(env, final, s, n, regs, log);
    match n
    case Start => StartAt(x, s, regs, log);
    case ByPending(j) =>
      JumpTaken(env, final, s, j, regs, log);
      assert Takes(x, s.code, j, regs, HeldBy(s, n, regs), log);
      assert Leaves(x, s.code, s.jpc, HeldBy(s, n, regs), log, VTrue, Result(Bool(true), log));
  }

  lemma JumpTaken(env: Env, final: seq<Instr>, s: Fs, j: nat, regs: Regs, log: seq<Event>)
    requires Ready(s) && Enters(s, ByPending(j), regs) && Fits(final, s.code)
    ensures Reaches(env, final, Conf(j - 1, regs, log), Conf(Target(final, j), AfterJump(final, j, regs), log))
  {
    var c := Conf(j - 1, regs, log);
    assert Pending(s.code, j);
    assert s.code[j - 1].TestSet? && s.code[j].Jmp?;
    ReachesSelf(env, final, c);
    ReachesStep(env, final, c, c);
  }

  /** Some way to come to the expression, and some truth values of the locals
      under which control can come that way, make it leak. */
  ghost predicate Risky(s: Fs, e: Expr) {
    exists n, up: set<nat> :: RiskyFrom(s, e, n, up)
  }

  ghost predicate RiskyFrom(s: Fs, e: Expr, n: Entry, up: set<nat>) {
    Enters(s, n, Truthful(up)) && Leaks(e, n.ByPending?, s.k, up)
  }

  ghost predicate RightFrom(env: Env, final: seq<Instr>, s: Fs, e: Expr, n: Entry, regs: Regs, log: seq<Event>) {
    var r := Eval(env, e, regs, log);
    Loads(EntryCtx(env, final, s, n, regs, log), s, e, r.v, r.log)
  }

  /** Control comes to the end of the code with a wrong value, or after asking the
      world something else. */
  ghost predicate WrongFrom(env: Env, final: seq<Instr>, s: Fs, e: Expr, n: Entry, regs: Regs, log: seq<Event>) {
    exists v, l :: Loads(EntryCtx(env, final, s, n, regs, log), s, e, v, l) && Result(v, l) != Eval(env, e, regs, log)
  }

  /** Generated code that is no risk computes the value of the expression, on every
      run and wherever control comes from; generated code that is a risk goes wrong
      on some run. */
  lemma ValueExact(s: Fs, e: Expr, i: Instr, final: seq<Instr>)
    requires Place(s, e) && Fits(final, Emit(ValueCode(s, e), i).code)
    ensures !Risky(s, e) ==>
              forall env, n, regs, log :: Coded(env, final, s, e, i) && Enters(s, n, regs) ==> RightFrom(env, final, s, e, n, regs, log)
    ensures Risky(s, e) ==>
              exists env, n, regs, log :: Coded(env, final, s, e, i) && Enters(s, n, regs) && WrongFrom(env, final, s, e, n, regs, log)
  {
    if Risky(s, e) {
      var n, up: set<nat> :| RiskyFrom(s, e, n, up);
      var env := RiskShows(s, e, i, final, n, up);
    } else {
      forall env, n, regs, log | Coded(env, final, s, e, i) && Enters(s, n, regs) ensures RightFrom(env, final, s, e, n, regs, log) {
        SafeFrom(env, final, s, e, i, n, regs, log);
      }
    }
  }

  /** Where the code is followed by a jump out of it, and nothing comes back to its
      end, that is an equivalence. */
  lemma ValueIff(s: Fs, e: Expr)
    requires Place(s, e)
    ensures var final := Emit(ValueCode(s, e), Jmp(1)).code;
            !Risky(s, e) <==>
              forall env, n, regs, log :: Coded(env, final, s, e, Jmp(1)) && Enters(s, n, regs) ==> RightFrom(env, final, s, e, n, regs, log)
  {
    hide Fits, Ready, Emit, ValueCode, Coded, Enters, RightFrom, WrongFrom, Risky;
    var final := Emit(ValueCode(s, e), Jmp(1)).code;
    assert Fits(final, final) by { FitsSelf(final); }
    ValueExact(s, e, Jmp(1), final);
    if Risky(s, e) {
      var env, n, regs, log :| Coded(env, final, s, e, Jmp(1)) && Enters(s, n, regs) && WrongFrom(env, final, s, e, n, regs, log);
      NotBoth(env, s, e, n, regs, log);
    }
  }

  lemma NotBoth(env: Env, s: Fs, e: Expr, n: Entry, regs: Regs, log: seq<Event>)
    requires Place(s, e)
    ensures var final := Emit(ValueCode(s, e), Jmp(1)).code;
            WrongFrom(env, final, s, e, n, regs, log) ==> !RightFrom(env, final, s, e, n, regs, log)
  {
    hide Fits, ListOk, Paired, Since, Emit, ValueCode, Enters, Eval, Get, Reaches;
    var v := ValueCode(s, e);
    var final := Emit(v, Jmp(1)).code;
    ValueForm(s, e);
    EmitSpec(v, Jmp(1));
    var x := EntryCtx(env, final, s, n, regs, log);
    forall p, q: Regs, l, m | Reaches(env, final, x.c0, Conf(|v.code|, p, l)) && Reaches(env, final, x.c0, Conf(|v.code|, q, m)) ensures p == q && l == m {
      StopsOnce(env, final, x.c0, Conf(|v.code|, p, l), Conf(|v.code|, q, m));
    }
  }

  /** Two ways to a configuration from which the machine stops in one step. */
  lemma StopsOnce(env: Env, code: seq<Instr>, c: Conf, d: Conf, e: Conf)
    requires Reaches(env, code, c, d) && Reaches(env, code, c, e) && d.pc == e.pc && 0 <= d.pc < |code|
    requires code[d.pc].Jmp? && !(0 <= Target(code, d.pc) < |code|)
    ensures d == e
  {
    ReachesStep(env, code, c, d);
    ReachesStep(env, code, c, e);
    var d1, e1 := Step(env, code, d).value, Step(env, code, e).value;
    var n: nat :| Run(env, code, c, n) == Some(d1);
    var m: nat :| Run(env, code, c, m) == Some(e1);
    if n <= m { RunAdd(env, code, c, n, d1, m - n); } else { RunAdd(env, code, c, m, e1, n - m); }
  }

  lemma SafeFrom(env: Env, final: seq<Instr>, s: Fs, e: Expr, i: Instr, n: Entry, regs: Regs, log: seq<Event>)
    requires Place(s, e) && Coded(env, final, s, e, i) && Enters(s, n, regs) && !Risky(s, e)
    ensures RightFrom(env, final, s, e, n, regs, log)
  {
    hide Fits, Ready, Emit, ValueCode, Leaks, Reaches, At, Loads;
    PlaceFits(final, s, e, i);
    EntryAt(env, final, s, n, regs, log);
    TruthfulUp(UpIn(regs));
    assert Enters(s, n, Truthful(UpIn(regs)));
    assert !RiskyFrom(s, e, n, UpIn(regs));
    ValueCorrect(EntryCtx(env, final, s, n, regs, log), s, e, i, HeldBy(s, n, regs), log);
  }

  lemma RiskShows(s: Fs, e: Expr, i: Instr, final: seq<Instr>, n: Entry, up: set<nat>) returns (env: Env)
    requires Place(s, e) && Fits(final, Emit(ValueCode(s, e), i).code) && RiskyFrom(s, e, n, up)
    ensures Coded(env, final, s, e, i) && WrongFrom(env, final, s, e, n, Truthful(up), [])
  {
    hide Fits, Ready, Emit, ValueCode, Leaks, Reaches, At, Loads;
    var regs := Truthful(up);
    env := WrongWorld(e, HeldBy(s, n, regs), s.k, up, ValueCode(s, e).k) by { TruthfulUp(up); }
    PlaceFits(final, s, e, i);
    EntryAt(env, final, s, n, regs, []);
    ValueRuns(EntryCtx(env, final, s, n, regs, []), s, e, i, HeldBy(s, n, regs), []);
    var o := Out(env, e, regs, [], HeldBy(s, n, regs), s.k);
    assert Result(Delivered(o.x), o.log) != Eval(env, e, regs, []);
  }

  /** A world in which a leak shows, with any constants. */
  lemma WrongWorld(e: Expr, held: Option<Value>, k: seq<Value>, up: set<nat>, consts: seq<Value>) returns (env: Env)
    requires NoBool(held) && Leaks(e, held.Some?, k, up)
    ensures env.k == consts && !Right(env, e, Truthful(up), [], held, k)
  {
    var script := LeakRun(e, [], held, k, up);
    env := Script(script, 0).(k := consts);
    OutWorld(Script(script, 0), env, e, Truthful(up), [], held, k);
    TruthfulUp(up);
    LeakWrong(env, e, Truthful(up), [], held, k);
  }

  /** The code before an expression is part of the final code, too. */
  lemma PlaceFits(final: seq<Instr>, s: Fs, e: Expr, i: Instr)
    requires Place(s, e) && Fits(final, Emit(ValueCode(s, e), i).code)
    ensures Fits(final, s.code)
  {
    hide Fits, ListOk, Paired, Since, Emit, CloseJumps, Gen, ExpToReg, ValueCode;
    ValueForm(s, e);
    var v := ValueCode(s, e);
    var (t, f) := Compiled(s, e);
    GenGood(s, e);
    EmitFits2(final, v, i);
    GoodEdge(t, f);
    SinceActive(s, Nothing, t, f);
    FrontFits(final, t, f, v, Nothing) by { WholeCut(final, v); }
    FrontFits(final, s, Nothing, t, f);
    WholeFits(final, s, Nothing);
  }

  // ---- Conditions ---------------------------------------------------------

  lemma TestForm(s: Fs, e: Expr, truth: bool)
    requires Place(s, e)
    ensures var (t, f) := Compiled(s, e); var (u, g) := TestCode(s, e, truth);
            && Good(t, f) && (u, g) == GoIf(t, f, truth) && Ready(u) && Since(t, f, u, g.(k := VTrue)) && ListOk(u.code, ListOf(g, !truth))
            && Base(t, f) >= t.nactvar && Base(t, f) == s.freereg && ShapeIs(t, f.k, ShapeOf(e))
  {
    hide Fits, Paired, Since, Emit, CloseJumps, Gen, GoIf;
    GenGood(s, e);
    var (r, q) := Gen(s, e);
    GoIfDischarged(r, q, truth);
    var (t, f) := Compiled(s, e);
    SinceActive(s, Nothing, t, f);
    GoIfGood(t, f, truth, ShapeOf(e));
  }

  /** The code of a test, followed by instruction `i` and whatever else, with the
      jumps of its list sent to `dest` by `luaK_patchlist`. */
  ghost predicate TestCoded(env: Env, final: seq<Instr>, s: Fs, e: Expr, truth: bool, i: Instr, dest: nat) {
    var (t, f) := TestCode(s, e, truth);
    && Fits(final, Emit(t, i).code) && t.k <= env.k
    && forall j <- ListOf(f, !truth) :: Target(final, j) == dest && !Valued(final, j)
  }

  /** Control goes on behind the test if `b` is the truth value asked for, and to
      `dest` otherwise. */
  ghost predicate Branches(x: Ctx, s: Fs, e: Expr, truth: bool, dest: nat, b: bool, log: seq<Event>) {
    exists after: Regs ::
      && Reaches(x.env, x.code, x.c0, Conf(if b == truth then |TestCode(s, e, truth).0.code| else dest, after, log))
      && Keeps(x.regs, after, s.freereg)
  }

  /** A test does exactly what `Out` says. */
  lemma TestRuns(x: Ctx, s: Fs, e: Expr, truth: bool, i: Instr, dest: nat, held: Option<Value>, log: seq<Event>)
    requires Place(s, e) && InUse(x, s.freereg) && At(x, s, held, log) && TestCoded(x.env, x.code, s, e, truth, i, dest)
    ensures var o := Out(x.env, e, x.regs, log, held, s.k); Branches(x, s, e, truth, dest, TruthOf(o.x), o.log)
  {
    hide Fits, ListOk, Paired, Since, Emit, Gen, Ends, LeavesBy, TestCode, Exits, GoIf, At;
    var n := s.freereg;
    var (t, f) := Compiled(s, e);
    var (u, g) := TestCode(s, e, truth);
    TestForm(s, e, truth);
    EmitFits2(x.code, u, i);
    GoodEdge(t, f);
    FrontFits(x.code, t, f, u, g.(k := VTrue)) by { WholeCut(x.code, u); }
    SinceActive(t, f, u, g.(k := VTrue));
    GenRuns(x, s, e, held, log);
    var o := Out(x.env, e, x.regs, log, held, s.k);
    GoIfRuns(x, t, f, truth, ShapeOf(e), o);
    var w := Go(ShapeOf(e), o.x, truth);
    WayTruth(x.env, e, x.regs, log, held, s.k, truth);
    var after: Regs;
    if w.Through? {
      LandsAt(x, u, i, w.held, o.log);
      after :| Gets(x, |u.code|, after, o.log);
    } else {
      after := TakesAway(x, u, ListOf(g, !truth), w.carry, o.log, dest);
    }
    forall r: nat | r < n ensures Get(after, r) == Get(x.regs, r) { assert r in x.live; }
    assert Keeps(x.regs, after, n);
    assert Reaches(x.env, x.code, x.c0, Conf(if TruthOf(o.x) == truth then |u.code| else dest, after, o.log));
  }

  lemma TakesAway(x: Ctx, u: Fs, l: seq<nat>, carry: Option<Value>, log: seq<Event>, dest: nat) returns (after: Regs)
    requires LeavesBy(x, u.code, l, carry, log) && forall j <- l :: Target(x.code, j) == dest && !Valued(x.code, j)
    ensures Gets(x, dest, after, log)
  {
    var j: nat, regs :| j in l && Takes(x, u.code, j, regs, carry, log);
    after := regs;
  }

  /** A test goes by the truth value. */
  lemma WayTruth(env: Env, e: Expr, regs: Regs, log: seq<Event>, held: Option<Value>, k: seq<Value>, truth: bool)
    ensures var o := Out(env, e, regs, log, held, k);
            Go(ShapeOf(e), o.x, truth).Through? <==> TruthOf(o.x) == truth
  {
    ShapeValue(env, e, regs, log, held, k);
  }

  /** A condition is tested correctly, whatever literals are in it, where the
      operands of its comparisons are right. */
  lemma ConditionCorrect(x: Ctx, s: Fs, e: Expr, truth: bool, i: Instr, dest: nat, held: Option<Value>, log: seq<Event>)
    requires Place(s, e) && InUse(x, s.freereg) && At(x, s, held, log) && TestCoded(x.env, x.code, s, e, truth, i, dest)
    requires !LeaksInside(e, held.Some?, s.k, UpIn(x.regs))
    ensures var r := Eval(x.env, e, x.regs, log); Branches(x, s, e, truth, dest, !IsFalse(r.v), r.log)
  {
    hide Fits, Ready, Emit, TestCode, LeaksInside, Reaches, At;
    TestRuns(x, s, e, truth, i, dest, held, log);
    TruthRight(x.env, e, x.regs, log, held, s.k);
  }

  ghost predicate TestRisky(s: Fs, e: Expr) {
    exists n, up: set<nat> :: TestRiskyFrom(s, e, n, up)
  }

  ghost predicate TestRiskyFrom(s: Fs, e: Expr, n: Entry, up: set<nat>) {
    Enters(s, n, Truthful(up)) && LeaksInside(e, n.ByPending?, s.k, up)
  }

  ghost predicate TestRightFrom(env: Env, final: seq<Instr>, s: Fs, e: Expr, truth: bool, dest: nat, n: Entry, regs: Regs, log: seq<Event>) {
    var r := Eval(env, e, regs, log);
    Branches(EntryCtx(env, final, s, n, regs, log), s, e, truth, dest, !IsFalse(r.v), r.log)
  }

  /** Control gets through the test after asking the world something else. */
  ghost predicate TestWrongFrom(env: Env, final: seq<Instr>, s: Fs, e: Expr, truth: bool, dest: nat, n: Entry, regs: Regs, log: seq<Event>) {
    exists b, l :: Branches(EntryCtx(env, final, s, n, regs, log), s, e, truth, dest, b, l) && l != Eval(env, e, regs, log).log
  }

  /** A condition without leaks in its comparisons is tested correctly on every run
      and wherever control comes from; one with a leak goes wrong on some run. */
  lemma ConditionExact(s: Fs, e: Expr, truth: bool, i: Instr, dest: nat, final: seq<Instr>)
    requires Place(s, e) && exists env :: TestCoded(env, final, s, e, truth, i, dest)
    ensures !TestRisky(s, e) ==>
              forall env, n, regs, log :: TestCoded(env, final, s, e, truth, i, dest) && Enters(s, n, regs) ==>
                TestRightFrom(env, final, s, e, truth, dest, n, regs, log)
    ensures TestRisky(s, e) ==>
              exists env, n, regs, log :: TestCoded(env, final, s, e, truth, i, dest) && Enters(s, n, regs)
                && TestWrongFrom(env, final, s, e, truth, dest, n, regs, log)
  {
    if TestRisky(s, e) {
      var n, up: set<nat> :| TestRiskyFrom(s, e, n, up);
      var env := TestRiskShows(s, e, truth, i, dest, final, n, up);
    } else {
      forall env, n, regs, log | TestCoded(env, final, s, e, truth, i, dest) && Enters(s, n, regs)
        ensures TestRightFrom(env, final, s, e, truth, dest, n, regs, log)
      {
        TestSafeFrom(env, final, s, e, truth, i, dest, n, regs, log);
      }
    }
  }

  lemma TestSafeFrom(env: Env, final: seq<Instr>, s: Fs, e: Expr, truth: bool, i: Instr, dest: nat, n: Entry, regs: Regs, log: seq<Event>)
    requires Place(s, e) && TestCoded(env, final, s, e, truth, i, dest) && Enters(s, n, regs) && !TestRisky(s, e)
    ensures TestRightFrom(env, final, s, e, truth, dest, n, regs, log)
  {
    hide Fits, Ready, Emit, TestCode, LeaksInside, Reaches, At, Branches, TestCoded;
    TestPlaceFits(env, final, s, e, truth, i, dest);
    EntryAt(env, final, s, n, regs, log);
    TruthfulUp(UpIn(regs));
    assert Enters(s, n, Truthful(UpIn(regs)));
    assert !TestRiskyFrom(s, e, n, UpIn(regs));
    ConditionCorrect(EntryCtx(env, final, s, n, regs, log), s, e, truth, i, dest, HeldBy(s, n, regs), log);
  }

  lemma TestRiskShows(s: Fs, e: Expr, truth: bool, i: Instr, dest: nat, final: seq<Instr>, n: Entry, up: set<nat>) returns (env: Env)
    requires Place(s, e) && (exists env :: TestCoded(env, final, s, e, truth, i, dest)) && TestRiskyFrom(s, e, n, up)
    ensures TestCoded(env, final, s, e, truth, i, dest) && TestWrongFrom(env, final, s, e, truth, dest, n, Truthful(up), [])
  {
    hide Fits, Ready, Emit, TestCode, LeaksInside, Reaches, At, Branches;
    var regs := Truthful(up);
    var some :| TestCoded(some, final, s, e, truth, i, dest);
    env := WrongQuestions(e, HeldBy(s, n, regs), s.k, up, some.k) by { TruthfulUp(up); }
    TestPlaceFits(env, final, s, e, truth, i, dest);
    EntryAt(env, final, s, n, regs, []);
    TestRuns(EntryCtx(env, final, s, n, regs, []), s, e, truth, i, dest, HeldBy(s, n, regs), []);
  }

  /** A world in which a leaking comparison asks something else. */
  lemma WrongQuestions(e: Expr, held: Option<Value>, k: seq<Value>, up: set<nat>, consts: seq<Value>) returns (env: Env)
    requires NoBool(held) && LeaksInside(e, held.Some?, k, up)
    ensures env.k == consts && Out(env, e, Truthful(up), [], held, k).log != Eval(env, e, Truthful(up), []).log
  {
    var script := RealizeLeak(e, [], held, k, up);
    env := Script(script, 0).(k := consts);
    OutWorld(Script(script, 0), env, e, Truthful(up), [], held, k);
    TruthfulUp(up);
    LeakShows(env, e, Truthful(up), [], held, k);
  }

  lemma TestPlaceFits(env: Env, final: seq<Instr>, s: Fs, e: Expr, truth: bool, i: Instr, dest: nat)
    requires Place(s, e) && TestCoded(env, final, s, e, truth, i, dest)
    ensures Fits(final, s.code)
  {
    hide Fits, ListOk, Paired, Since, Emit, Gen, TestCode, GoIf;
    var (t, f) := Compiled(s, e);
    var (u, g) := TestCode(s, e, truth);
    TestForm(s, e, truth);
    GenGood(s, e);
    EmitFits2(final, u, i);
    GoodEdge(t, f);
    SinceActive(s, Nothing, t, f);
    FrontFits(final, t, f, u, g.(k := VTrue)) by { WholeCut(final, u); }
    FrontFits(final, s, Nothing, t, f);
    WholeFits(final, s, Nothing);
  }
}
