/** Operands: values that have to be in a register or in the constant table. */
module CodeOperand {
  import opened CodeVm
  import opened CodeTree
  import opened CodeGen
  import opened CodeLists
  import opened CodeState
  import opened CodeExits
  import opened CodeDischarge
  import opened CodeClose

  lemma DischargeTwice(s: Fs, e: Exp)
    requires Discharged(e.k)
    ensures DischargeVars(s, e) == (s, e)
  {}

  // ---- exp2reg ------------------------------------------------------------

  /** The jump of a comparison joins the list of true exits. */
  function Joined(e: Exp): Exp {
    if e.k.VJmp? then e.(t := e.t + [e.k.pc]) else e
  }

  lemma JoinedClosing(s: Fs, e: Exp, reg: nat)
    requires Good(s, e) && (e.k.VJmp? || e.k == VNonReloc(reg))
    ensures Closing(s, Joined(e), reg)
    ensures var g := Joined(e).(k := VNonReloc(reg)); Owned(s, g) == Owned(s, e)
  {
    if e.k.VJmp? {
      var l := Joined(e).t;
      assert forall j <- l :: j in e.t || j == e.k.pc;
      assert forall j <- e.t :: j in l;
      assert l[|l| - 1] == e.k.pc;
    }
  }

  /** What was settled more is settled less. */
  lemma SinceFront(s: Fs, e: Exp, g: Exp, t: Fs, f: Exp)
    requires Good(s, e) && Since(s, g, t, f) && Front(s, e) <= Front(s, g) && Owned(s, g) == Owned(s, e)
    ensures Since(s, e, t, f)
  {
    GoodEdge(s, e);
    PendingFront(s, e);
    hide Good, Owned, Fits;
    var n := Front(s, e);
    var c := s.code[..Front(s, g)];
    SinceCut(s, e, g, t, n);
    assert c[..n] == s.code[..n];
  }

  lemma SinceCut(s: Fs, e: Exp, g: Exp, t: Fs, n: int)
    requires 0 <= n <= Front(s, g) && Fits(t.code, s.code[..Front(s, g)]) && n == Front(s, e) && Good(s, e)
    requires n == 0 || !s.code[n - 1].TestSet?
    ensures Fits(t.code, s.code[..n])
  {
    var c := s.code[..Front(s, g)];
    if n > 0 { assert c[n - 1] == s.code[n - 1]; }
    FitsCut(t.code, c, n);
    assert c[..n] == s.code[..n];
  }

  lemma ExpToRegGood(s: Fs, e: Exp, reg: nat)
    requires Good(s, e)
    ensures var (t, f) := ExpToReg(s, e, reg);
            && f == Exp(VNonReloc(reg), [], []) && Ready(t) && Since(s, e, t, Nothing)
            && t.freereg == s.freereg && t.k == LoadedKind(e.k, s.k)
  {
    hide Fits, Paired, ListOk, Since, CloseJumps;
    DischargeTwice(s, e);
    if e.k.VJmp? {
      JoinedClosing(s, e, reg);
      CloseGood(s, Joined(e), reg);
      var t := CloseJumps(s, Joined(e), reg);
      SinceFront(s, e, Joined(e).(k := VNonReloc(reg)), t, Nothing);
    } else {
      DischargeGood(s, e, reg);
      var (s1, e1) := DischargeTo(s, e, reg);
      CloseGood(s1, e1, reg);
      assert e1.(k := VNonReloc(reg)) == e1;
      SinceTrans(s, e, s1, e1, CloseJumps(s1, e1, reg), Nothing);
    }
  }

  /** `exp2reg` does its work: wherever control leaves the expression, its value
      ends up in the register. */
  lemma ExpToRegRuns(x: Ctx, s: Fs, e: Exp, reg: nat, o: Outcome)
    requires Good(s, e) && Exits(x, s, e, o)
    requires var (t, _) := ExpToReg(s, e, reg); Fits(x.code, t.code) && t.k <= x.env.k
    ensures Holds(x.(live := x.live - {reg}), ExpToReg(s, e, reg).0, reg, Delivered(o.x),
                  if e.k == VNonReloc(reg) && o.x.On? then o.x.held else None, o.log)
  {
    hide Fits, Paired, ListOk, Since, CloseJumps, Agree, ListsGood;
    DischargeTwice(s, e);
    if e.k.VJmp? {
      JoinedClosing(s, e, reg);
      if o.x.On? {
        EndsJump(x, s, e, o.x.v, o.x.held, o.log);
        CloseJump(x, s, e, reg, o.x.v, o.log);
      } else {
        JoinedLeaves(x, s, e, o.x.truth, o.x.carry, o.log);
        CloseBy(x, s, Joined(e), reg, o.x.truth, o.x.carry, o.log);
      }
    } else {
      var (s1, e1) := DischargeTo(s, e, reg);
      DischargeGood(s, e, reg);
      CloseGood(s1, e1, reg);
      var t := CloseJumps(s1, e1, reg);
      EarlierFits(x.code, s1, e1, t);
      if o.x.On? {
        DischargeRuns(x, s, e, reg, o.x.v, o.x.held, o.log);
        CloseOn(x.(live := x.live - {reg}), s1, e1, reg, o.x.v, if e.k == VNonReloc(reg) then o.x.held else None, o.log);
      } else {
        LeavesLater(x, s.code, s1.code, ListOf(e, o.x.truth), ListOf(e1, o.x.truth), o.x.carry, o.log, VTrue, Result(Bool(true), o.log));
        CloseBy(x, s1, e1, reg, o.x.truth, o.x.carry, o.log);
      }
    }
  }

  lemma EarlierFits(final: seq<Instr>, s: Fs, e: Exp, t: Fs)
    requires Since(s, e.(k := e.k), t, Nothing) && Inert(e.k) && Fits(final, t.code)
    ensures Fits(final, s.code)
  {
    assert s.code[..|s.code|] == s.code;
    FitsTrans(final, t.code, s.code);
  }

  lemma EndsJump(x: Ctx, s: Fs, e: Exp, v: Value, held: Option<Value>, log: seq<Event>)
    requires Ends(x, s, e, v, held, log) && !Inert(e.k)
    ensures held == None
  {}

  lemma JoinedLeaves(x: Ctx, s: Fs, e: Exp, b: bool, carry: Option<Value>, log: seq<Event>)
    requires Good(s, e) && e.k.VJmp? && LeavesBy(x, s.code, ListOf(e, b), carry, log)
    ensures LeavesBy(x, s.code, ListOf(Joined(e), b), carry, log)
  {
    assert SameList(s.code, s.code, ListOf(e, b));
    LeavesLater(x, s.code, s.code, ListOf(e, b), ListOf(Joined(e), b), carry, log, VTrue, Result(Bool(true), log));
  }

  // ---- exp2RK -------------------------------------------------------------

  /** The operand is used where it is. */
  predicate DirectKind(s: Fs, e: Exp) {
    && e.t == [] && e.f == []
    && match e.k
       case VNonReloc(_) => true
       case VK(i) => i <= MAXINDEXRK
       case VReloc(_) => false
       case VJmp(_) => false
       case _ => |s.k| <= MAXINDEXRK
  }

  /** `luaK_exp2RK`, by cases: nothing to do, a constant to add, or a value to
      load into the next register. */
  lemma ExpToRkForm(s: Fs, e: Exp)
    requires Good(s, e) && Base(s, e) >= 0
    ensures ExpToRk(s, e) ==
      if DirectKind(s, e) then
        if e.k.VNonReloc? || e.k.VK? then (s, e)
        else var (t, i) := AddK(s, LiteralValue(e.k)); (t, e.(k := VK(i)))
      else ExpToReg(s.(freereg := Base(s, e) + 1), e, Base(s, e))
  {
    hide CloseJumps, Emit;
    DischargeTwice(s, e);
    if e.t == [] && e.f == [] {
      assert ExpToVal(s, e) == (s, e);
      if !DirectKind(s, e) { NextRegForm(s, e); }
    } else {
      if e.k.VNonReloc? && e.k.r >= s.nactvar {
        assert ExpToAnyReg(s, e) == ExpToReg(s, e, e.k.r);
      } else {
        NextRegForm(s, e);
      }
      var (t, f) := ExpToReg(s.(freereg := Base(s, e) + 1), e, Base(s, e));
      assert ExpToVal(s, e) == (t, f);
      DischargeTwice(t, f);
      assert ExpToAnyReg(t, f) == (t, f);
    }
  }

  lemma NextRegForm(s: Fs, e: Exp)
    requires Discharged(e.k) && !(e.k.VNonReloc? && e.k.r >= s.nactvar)
    ensures ExpToNextReg(s, e) == ExpToReg(s.(freereg := s.freereg + 1), e, s.freereg)
    ensures ExpToAnyReg(s, e) == if e.k.VNonReloc? && e.t == [] && e.f == [] then (s, e) else ExpToNextReg(s, e)
  {
    DischargeTwice(s, e);
    hide ExpToReg;
  }

  lemma ExpToRkDischarged(s: Fs, e: Exp)
    ensures var (t, f) := DischargeVars(s, e); ExpToRk(s, e) == ExpToRk(t, f)
  {
    hide Emit, ExpToReg, ExpToNextReg, ExpToAnyReg;
    var (t, f) := DischargeVars(s, e);
    DischargeTwice(t, f);
    AnyRegDischarged(s, e);
    hide DischargeVars;
    ValDischarged(s, e, t, f);
  }

  lemma AnyRegDischarged(s: Fs, e: Exp)
    ensures var (t, f) := DischargeVars(s, e); ExpToAnyReg(s, e) == ExpToAnyReg(t, f) && f.t == e.t && f.f == e.f
  {
    hide Emit, ExpToReg;
    var (t, f) := DischargeVars(s, e);
    DischargeTwice(t, f);
  }

  lemma ValDischarged(s: Fs, e: Exp, t: Fs, f: Exp)
    requires (t, f) == DischargeVars(s, e) && DischargeVars(t, f) == (t, f)
    requires ExpToAnyReg(s, e) == ExpToAnyReg(t, f) && f.t == e.t && f.f == e.f
    ensures ExpToVal(s, e) == ExpToVal(t, f)
  {
    hide DischargeVars, ExpToAnyReg;
  }

  /** The constant of an operand, or its register. */
  ghost predicate OperandKind(s: Fs, e: Exp, fr: nat) {
    && e.t == [] && e.f == []
    && match e.k
       case VK(i) => i <= MAXINDEXRK && s.freereg == fr
       case VNonReloc(r) => if r < s.nactvar then s.freereg == fr else r == fr && s.freereg == fr + 1
       case _ => false
  }

  lemma ExpToRkGood(s: Fs, e: Exp)
    requires Good(s, e) && Base(s, e) >= s.nactvar
    ensures var (t, f) := ExpToRk(s, e);
            && Ready(t) && Since(s, e, t, Nothing) && OperandKind(t, f, Base(s, e))
  {
    hide Fits, Paired, ListOk, ExpToReg, ExpToRk;
    ExpToRkForm(s, e);
    if DirectKind(s, e) {
      SinceNothing(s, e);
      if !e.k.VNonReloc? && !e.k.VK? {
        var (t, i) := AddK(s, LiteralValue(e.k));
        SinceAdd(s, e, t);
      }
    } else {
      var u := s.(freereg := Base(s, e) + 1);
      GoodReg(s, u, e);
      ExpToRegGood(u, e, Base(s, e));
      SinceReg(s, u, e, ExpToReg(u, e, Base(s, e)).0, Nothing);
    }
  }

  lemma SinceAdd(s: Fs, e: Exp, t: Fs)
    requires Since(s, e, s, Nothing) && t == s.(k := t.k) && s.k <= t.k
    ensures Since(s, e, t, Nothing)
  {}

  /** The number of registers in use is no part of the code. */
  lemma SinceReg(s: Fs, u: Fs, e: Exp, t: Fs, f: Exp)
    requires Since(u, e, t, f) && u == s.(freereg := u.freereg)
    ensures Since(s, e, t, f)
  {}

  lemma GoodReg(s: Fs, u: Fs, e: Exp)
    requires Good(s, e) && Base(s, e) >= s.nactvar && u == s.(freereg := Base(s, e) + 1)
    ensures Good(u, e)
  {
    hide ListOk, Paired;
  }

  /** The registers that matter once the operand is there. */
  function WithOperand(x: Ctx, f: Exp, v: Value): Ctx {
    if f.k.VNonReloc? then x.(regs := x.regs[f.k.r := v], live := x.live + {f.k.r}) else x
  }

  function OperandHeld(s: Fs, e: Exp, o: Outcome): Option<Value> {
    if DirectKind(s, e) && o.x.On? then o.x.held else None
  }

  /** An operand is where it should be, and stays there. */
  lemma ExpToRkRuns(x: Ctx, s: Fs, e: Exp, o: Outcome)
    requires Good(s, e) && Base(s, e) >= s.nactvar && Exits(x, s, e, o)
    requires forall r <- x.live :: r < Base(s, e)
    requires var (t, _) := ExpToRk(s, e); Fits(x.code, t.code) && t.k <= x.env.k
    ensures var (t, f) := ExpToRk(s, e); var y := WithOperand(x, f, Delivered(o.x));
            && At(y, t, OperandHeld(s, e, o), o.log)
            && GetRk(y.env, y.regs, RkOf(f)) == Delivered(o.x)
            && (f.k.VNonReloc? && f.k.r in x.live ==> Get(x.regs, f.k.r) == Delivered(o.x))
  {
    hide Fits, Paired, ListOk, Since, ExpToReg, ExpToRk;
    ExpToRkForm(s, e);
    if DirectKind(s, e) {
      DirectOn(x, s, e, o);
      if e.k.VNonReloc? {
        HeldAt(x, s, e, o.x.v, o.x.held, o.log);
      } else {
        var (t, f) := ExpToRk(s, e);
        LiteralAt(x, s, t, e, o.x.v, o.x.held, o.log);
      }
    } else {
      var fr := Base(s, e);
      var u := s.(freereg := fr + 1);
      GoodReg(s, u, e);
      ExitsReg(x, s, u, e, o);
      ExpToRegGood(u, e, fr);
      ExpToRegRuns(x, u, e, fr, o);
      assert x.live - {fr} == x.live;
      var t := ExpToReg(u, e, fr).0;
      var held := if e.k == VNonReloc(fr) && o.x.On? then o.x.held else None;
      if e.k.VNonReloc? && fr == e.k.r { NoneHeld(x, u, e, o); }
      HeldAt(x, t, Exp(VNonReloc(fr), [], []), Delivered(o.x), held, o.log);
    }
  }

  lemma ExitsReg(x: Ctx, s: Fs, u: Fs, e: Exp, o: Outcome)
    requires Exits(x, s, e, o) && u == s.(freereg := u.freereg)
    ensures Exits(x, u, e, o)
  {
    if o.x.On? && o.x.held.None? && exists log0 :: Falls(x, s.code, Front(s, e), log0, e.k, Result(o.x.v, o.log)) {
      var log0 :| Falls(x, s.code, Front(s, e), log0, e.k, Result(o.x.v, o.log));
      assert Falls(x, u.code, Front(u, e), log0, e.k, Result(o.x.v, o.log));
    }
  }

  /** Without jumps, control can only come to the end. */
  lemma DirectOn(x: Ctx, s: Fs, e: Exp, o: Outcome)
    requires Exits(x, s, e, o) && e.t == [] && e.f == []
    ensures o.x.On?
  {}

  /** When the value is in a register of its own nothing is pending. */
  lemma NoneHeld(x: Ctx, s: Fs, e: Exp, o: Outcome)
    requires Good(s, e) && Exits(x, s, e, o) && e.k.VNonReloc? && e.k.r >= s.nactvar
    ensures o.x.On? ==> o.x.held == None
  {}

  lemma HeldAt(x: Ctx, s: Fs, e: Exp, v: Value, held: Option<Value>, log: seq<Event>)
    requires Ends(x, s, e, v, held, log) && e.k.VNonReloc?
    ensures At(WithOperand(x, e, v), s, held, log)
    ensures e.k.r in x.live ==> Get(x.regs, e.k.r) == v
  {
    var y := WithOperand(x, e, v);
    if held.None? && exists log0 :: Falls(x, s.code, Front(s, e), log0, e.k, Result(v, log)) {
      var log0 :| Falls(x, s.code, Front(s, e), log0, e.k, Result(v, log));
      var regs :| Gets(x, |s.code|, regs, log0) && Yields(x.env, s.code, e.k, regs, log0) == Result(v, log);
      assert Gets(y, |s.code|, regs, log);
      assert Yields(y.env, s.code, VTrue, regs, log) == Result(Bool(true), log);
      assert Falls(y, s.code, |s.code|, log, VTrue, Result(Bool(true), log));
    } else {
      var j: nat, regs :| j in s.jpc && Takes(x, s.code, j, regs, held, log) && Yields(x.env, s.code, e.k, regs, log) == Result(v, log);
      assert Takes(y, s.code, j, regs, held, log);
      assert Yields(y.env, s.code, VTrue, regs, log) == Result(Bool(true), log);
    }
  }

  /** A literal, now a constant. */
  lemma LiteralAt(x: Ctx, s: Fs, t: Fs, e: Exp, v: Value, held: Option<Value>, log: seq<Event>)
    requires Ends(x, s, e, v, held, log) && DirectKind(s, e) && !e.k.VNonReloc? && Discharged(e.k)
    requires t == s.(k := t.k) && t.k <= x.env.k
    ensures At(x, t, held, log)
    ensures if e.k.VK? then Const(x.env, e.k.i) == v else LiteralValue(e.k) == v
  {
    if held.None? && exists log0 :: Falls(x, s.code, Front(s, e), log0, e.k, Result(v, log)) {
      var log0 :| Falls(x, s.code, Front(s, e), log0, e.k, Result(v, log));
      var regs :| Gets(x, |s.code|, regs, log0) && Yields(x.env, s.code, e.k, regs, log0) == Result(v, log);
      assert Yields(x.env, t.code, VTrue, regs, log) == Result(Bool(true), log);
      assert Falls(x, t.code, |t.code|, log, VTrue, Result(Bool(true), log));
    } else {
      var j: nat, regs :| j in s.jpc && Takes(x, s.code, j, regs, held, log) && Yields(x.env, s.code, e.k, regs, log) == Result(v, log);
      assert Takes(x, t.code, j, regs, held, log);
      assert Yields(x.env, t.code, VTrue, regs, log) == Result(Bool(true), log);
    }
  }
}
