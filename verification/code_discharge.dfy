/** Putting the value of an expression into a register (`exp2reg`). */
module CodeDischarge {
  import opened CodeVm
  import opened CodeTree
  import opened CodeGen
  import opened CodeLists
  import opened CodeState
  import opened CodeExits

  // ---- The value of the last operand --------------------------------------

  /** `discharge2reg` as a change of the code. */
  lemma DischargeGood(s: Fs, e: Exp, reg: nat)
    requires Good(s, e) && !e.k.VJmp?
    ensures var (t, f) := DischargeTo(s, e, reg);
            && f == e.(k := VNonReloc(reg)) && ListsGood(t, f) && Since(s, e, t, f) && t.freereg == s.freereg
            && (if e.k == VNonReloc(reg) then t == s else t.jpc == [])
            && t.k == LoadedKind(e.k, s.k)
            && (forall j <- e.t :: Valued(t.code, j) <==> Valued(s.code, j))
            && (forall j <- e.f :: Valued(t.code, j) <==> Valued(s.code, j))
            && SameList(s.code, t.code, e.t) && SameList(s.code, t.code, e.f)
  {
    match e.k
    case VReloc(pc) => SetAGood(s, e, reg);
    case VNonReloc(r) => if r != reg { EmitGood(s, e, Move(reg, r), VNonReloc(reg)); } else { SinceSelf(s, e); }
    case VNil => EmitGood(s, e, LoadNil(reg, reg), VNonReloc(reg));
    case VTrue => EmitGood(s, e, LoadBool(reg, true, false), VNonReloc(reg));
    case VFalse => EmitGood(s, e, LoadBool(reg, false, false), VNonReloc(reg));
    case VK(i) => EmitGood(s, e, LoadK(reg, i), VNonReloc(reg));
    case VKNum(n) =>
      var (s1, i) := AddK(s, Num(n));
      EmitGood(s1, e, LoadK(reg, i), VNonReloc(reg));
      SinceConst(s, s1, e, Emit(s1, LoadK(reg, i)), e.(k := VNonReloc(reg)));
    case _ =>
  }

  function LoadedKind(k: Kind, c: seq<Value>): seq<Value> {
    if k.VKNum? then AddConst(c, Num(k.n)) else c
  }

  /** A new constant in between. */
  lemma SinceConst(s: Fs, s1: Fs, e: Exp, t: Fs, f: Exp)
    requires Since(s1, e, t, f) && s1 == s.(k := s1.k) && s.k <= s1.k
    ensures Since(s, e, t, f)
  {}

  lemma SetAGood(s: Fs, e: Exp, reg: nat)
    requires Good(s, e) && e.k.VReloc?
    ensures var (t, f) := DischargeTo(s, e, reg);
            && ListsGood(t, f) && Since(s, e, t, f)
            && SameList(s.code, t.code, e.t) && SameList(s.code, t.code, e.f)
  {
    var pc := e.k.pc;
    var (t, f) := DischargeTo(s, e, reg);
    forall j <- e.t + e.f ensures Pending(t.code, j) && j < pc && (Valued(t.code, j) <==> Valued(s.code, j)) {
      assert Pending(s.code, j);
    }
    assert s.code[..pc] == t.code[..pc];
    FitsMore(t.code[..pc], t.code[pc..]);
    assert t.code == t.code[..pc] + t.code[pc..];
    assert Paired(t.code) by {
      forall q: nat | q < |t.code| && t.code[q].TestSet? ensures q + 1 < |t.code| && t.code[q + 1].Jmp? {
        assert t.code[q] == s.code[q];
      }
    }
  }

  /** What `reg` holds when the value has been put there. */
  ghost predicate Holds(x: Ctx, s: Fs, reg: nat, v: Value, held: Option<Value>, log: seq<Event>) {
    Ends(x, s, Exp(VNonReloc(reg), [], []), v, held, log)
  }

  lemma HoldsAt(x: Ctx, s: Fs, reg: nat, regs: Regs, v: Value, log: seq<Event>)
    requires Gets(x, |s.code|, regs, log) && Get(regs, reg) == v
    ensures Holds(x, s, reg, v, None, log)
  {
    var e := Exp(VNonReloc(reg), [], []);
    assert Yields(x.env, s.code, e.k, regs, log) == Result(v, log);
    assert Falls(x, s.code, Front(s, e), log, e.k, Result(v, log));
  }

  /** `discharge2reg` as the program runs. */
  lemma DischargeRuns(x: Ctx, s: Fs, e: Exp, reg: nat, v: Value, held: Option<Value>, log: seq<Event>)
    requires Good(s, e) && !e.k.VJmp? && Ends(x, s, e, v, held, log)
    requires var (t, _) := DischargeTo(s, e, reg); Fits(x.code, t.code) && t.k <= x.env.k
    ensures var (t, _) := DischargeTo(s, e, reg);
            Holds(x.(live := x.live - {reg}), t, reg, v, if e.k == VNonReloc(reg) then held else None, log)
  {
    var (t, _) := DischargeTo(s, e, reg);
    match e.k
    case VReloc(pc) => SetARuns(x, s, e, reg, v, held, log);
    case VNonReloc(r) => if r != reg { EmitRuns(x, s, e, Move(reg, r), reg, v, held, log); } else { EndsList(x, s, e, reg, v, held, log); }
    case VNil => EmitRuns(x, s, e, LoadNil(reg, reg), reg, v, held, log);
    case VTrue => EmitRuns(x, s, e, LoadBool(reg, true, false), reg, v, held, log);
    case VFalse => EmitRuns(x, s, e, LoadBool(reg, false, false), reg, v, held, log);
    case VK(i) => EmitRuns(x, s, e, LoadK(reg, i), reg, v, held, log);
    case VKNum(n) =>
      var (s1, i) := AddK(s, Num(n));
      EndsConst(x, s, s1, e, v, held, log);
      EmitRuns(x, s1, e, LoadK(reg, i), reg, v, held, log);
    case _ =>
  }

  lemma EndsConst(x: Ctx, s: Fs, s1: Fs, e: Exp, v: Value, held: Option<Value>, log: seq<Event>)
    requires Ends(x, s, e, v, held, log) && s1 == s.(k := s1.k)
    ensures Ends(x, s1, e, v, held, log)
  {
    if held.None? && exists log0 :: Falls(x, s.code, Front(s, e), log0, e.k, Result(v, log)) {
      var log0 :| Falls(x, s.code, Front(s, e), log0, e.k, Result(v, log));
      assert Falls(x, s1.code, Front(s1, e), log0, e.k, Result(v, log));
    }
  }

  lemma EndsList(x: Ctx, s: Fs, e: Exp, reg: nat, v: Value, held: Option<Value>, log: seq<Event>)
    requires Ends(x, s, e, v, held, log) && e.k == VNonReloc(reg)
    ensures Holds(x.(live := x.live - {reg}), s, reg, v, held, log)
  {
    EndsLess(x, s, e, v, held, log, x.live - {reg});
    var y := x.(live := x.live - {reg});
    var g := Exp(VNonReloc(reg), [], []);
    if held.None? && exists log0 :: Falls(y, s.code, Front(s, e), log0, e.k, Result(v, log)) {
      var log0 :| Falls(y, s.code, Front(s, e), log0, e.k, Result(v, log));
      assert Falls(y, s.code, Front(s, g), log0, g.k, Result(v, log));
    } else {
      assert Leaves(y, s.code, s.jpc, held, log, g.k, Result(v, log));
    }
  }

  /** The instruction that loads a value. */
  predicate Loads(env: Env, i: Instr, reg: nat, k: Kind) {
    match k
    case VNil => i == LoadNil(reg, reg)
    case VTrue => i == LoadBool(reg, true, false)
    case VFalse => i == LoadBool(reg, false, false)
    case VK(n) => i == LoadK(reg, n)
    case VKNum(n) => i.LoadK? && i.a == reg && Const(env, i.k) == Num(n)
    case VNonReloc(r) => i == Move(reg, r)
    case _ => false
  }

  lemma LoadStep(x: Ctx, pc: nat, k: Kind, reg: nat, regs: Regs, log: seq<Event>)
    requires pc < |x.code| && Loads(x.env, x.code[pc], reg, k)
    ensures var d := Step(x.env, x.code, Conf(pc, regs, log)).value;
            && d.pc == pc + 1 && Get(d.regs, reg) == Yields(x.env, x.code, k, regs, log).v && d.log == log
            && forall r: nat :: r != reg ==> Get(d.regs, r) == Get(regs, r)
  {}

  lemma EmitRuns(x: Ctx, s: Fs, e: Exp, i: Instr, reg: nat, v: Value, held: Option<Value>, log: seq<Event>)
    requires ListsGood(s, e) && Inert(e.k) && Ends(x, s, e, v, held, log)
    requires Loads(x.env, i, reg, e.k) && Fits(x.code, Emit(s, i).code)
    ensures Holds(x.(live := x.live - {reg}), Emit(s, i), reg, v, None, log)
  {
    var n := |s.code|;
    var t := Emit(s, i);
    EmitSpec(s, i);
    FitsCut(x.code, t.code, n);
    LandsEnd(x, s, e, i, v, held, log);
    Settled(x.code, t.code, n);
    var regs :| Gets(x, n, regs, log) && Yields(x.env, s.code, e.k, regs, log) == Result(v, log);
    InertYields(x.env, s.code, x.code, e.k, regs, log);
    LoadStep(x, n, e.k, reg, regs, log);
    Advances(x, n, regs, log, x.live - {reg});
    var d := Step(x.env, x.code, Conf(n, regs, log)).value;
    HoldsAt(x.(live := x.live - {reg}), t, reg, d.regs, v, log);
  }

  lemma SetARuns(x: Ctx, s: Fs, e: Exp, reg: nat, v: Value, held: Option<Value>, log: seq<Event>)
    requires Good(s, e) && e.k.VReloc? && Ends(x, s, e, v, held, log)
    requires Fits(x.code, DischargeTo(s, e, reg).0.code)
    ensures Holds(x.(live := x.live - {reg}), DischargeTo(s, e, reg).0, reg, v, None, log)
  {
    var pc := e.k.pc;
    var t := DischargeTo(s, e, reg).0;
    Settled(x.code, t.code, pc);
    var log0 :| Falls(x, s.code, pc, log0, e.k, Result(v, log));
    var regs :| Gets(x, pc, regs, log0) && Yields(x.env, s.code, e.k, regs, log0) == Result(v, log);
    Advances(x, pc, regs, log0, x.live - {reg});
    var d := Step(x.env, x.code, Conf(pc, regs, log0)).value;
    HoldsAt(x.(live := x.live - {reg}), t, reg, d.regs, v, log);
  }
}
