/** What the generator emits is in order, instruction by instruction, at every moment:
    operands are there, a test has its jump behind it, jumps stay in the code. */
module CodeFine {
  import opened CodeVm
  import opened CodeTree
  import opened CodeGen
  import opened CodeLists
  import opened CodeState
  import opened CodeExits
  import opened CodeDischarge
  import opened CodeClose
  import opened CodeOperand
  import opened CodeTests
  import opened CodeNegation
  import opened CodeCorrect

  // ---- Instructions in order ----------------------------------------------

  predicate RkFine(x: Rk, n: nat, k: seq<Value>) {
    match x case R(r) => r < n case K(i) => i < |k| && i <= MAXINDEXRK
  }

  /** The operands are registers below `n` and constants in `k`; the test of a jump that
      still waits may have no register for its value yet. */
  predicate OperandsFine(code: seq<Instr>, i: nat, n: nat, k: seq<Value>)
    requires i < |code|
  {
    match code[i]
    case Move(a, b) => a < n && b < n
    case LoadK(a, c) => a < n && c < |k|
    case LoadBool(a, _, _) => a < n
    case LoadNil(a, b) => a < n && b < n
    case GetGlobal(a, g) => a < n && g < |k| && k[g].Str?
    case Not(a, b) => a < n && b < n
    case Call(a) => a < n
    case Cmp(_, _, x, y) => RkFine(x, n, k) && RkFine(y, n, k)
    case Test(a, _) => a < n
    case TestSet(a, b, _) => b < n && (a < n || (a == NO_REG && Pending(code, i + 1)))
    case Jmp(_) => true
  }

  /** What has to come next is there, and a jump goes no further than `m`. */
  predicate NextFine(code: seq<Instr>, i: nat, m: int)
    requires i < |code|
  {
    match code[i]
    case Cmp(_, _, _, _) => i + 1 < |code| && code[i + 1].Jmp?
    case Test(_, _) => i + 1 < |code| && code[i + 1].Jmp?
    case TestSet(_, _, _) => i + 1 < |code| && code[i + 1].Jmp?
    case LoadBool(_, _, skip) => skip ==> i + 1 < |code| && code[i + 1].LoadBool?
    case Jmp(sbx) => 0 <= i + 1 + sbx <= m
    case _ => true
  }

  ghost predicate Fine(code: seq<Instr>, m: int, n: nat, k: seq<Value>) {
    forall i: nat {:trigger code[i]} :: i < |code| ==> OperandsFine(code, i, n, k) && NextFine(code, i, m)
  }

  lemma FineMore(code: seq<Instr>, m: int, n: nat, k: seq<Value>, m': int, k': seq<Value>)
    requires Fine(code, m, n, k) && m <= m' && k <= k'
    ensures Fine(code, m', n, k')
  {
    assert forall i: nat :: i < |k| ==> k'[i] == k[i];
    forall i: nat | i < |code| ensures OperandsFine(code, i, n, k') && NextFine(code, i, m') {
      assert code[i] == code[i];
    }
  }

  // ---- Single operations --------------------------------------------------

  predicate InCode(dest: int, m: int) { 0 <= dest <= m }

  lemma FinePatched(code: seq<Instr>, r: seq<Instr>, l: seq<nat>, v: int, reg: Option<nat>, d: int, m: int, n: nat, k: seq<Value>)
    requires Fine(code, m, n, k) && ListOk(code, l) && Patched(code, r, l, v, reg, d)
    requires (reg.Some? ==> reg.value < n)
    requires forall j <- l :: InCode(if Valued(code, j) then v else d, m)
    ensures Fine(r, m, n, k)
  {
    forall i: nat | i < |r| ensures OperandsFine(r, i, n, k) && NextFine(r, i, m) {
      assert OperandsFine(code, i, n, k) && NextFine(code, i, m) by { assert code[i] == code[i]; }
      if i in l { assert Pending(code, i); }
      if i + 1 < |code| {
        assert code[i + 1] == code[i + 1] && r[i + 1] == r[i + 1];
        if i + 1 in l { assert Pending(code, i + 1); }
      }
    }
  }

  lemma FineRemoved(code: seq<Instr>, r: seq<Instr>, l: seq<nat>, m: int, n: nat, k: seq<Value>)
    requires Fine(code, m, n, k) && ListOk(code, l) && Removed(code, r, l)
    ensures Fine(r, m, n, k)
  {
    forall i: nat | i < |r| ensures OperandsFine(r, i, n, k) && NextFine(r, i, m) {
      assert OperandsFine(code, i, n, k) && NextFine(code, i, m) by { assert code[i] == code[i]; }
      if i + 1 < |code| { assert code[i + 1] == code[i + 1] && r[i + 1] == r[i + 1]; }
    }
  }

  /** An instruction that needs nothing behind it. */
  predicate Plain(i: Instr) {
    !IsTest(i) && (i.LoadBool? ==> !i.skip) && !i.Jmp?
  }

  lemma FineAppend(code: seq<Instr>, more: seq<Instr>, m: int, n: nat, k: seq<Value>)
    requires Fine(code, m, n, k)
    requires 1 <= |more| <= 2 && OperandsFine(code + more, |code|, n, k) && NextFine(code + more, |code|, m)
    requires |more| == 2 ==> OperandsFine(code + more, |code| + 1, n, k) && NextFine(code + more, |code| + 1, m)
    ensures Fine(code + more, m, n, k)
  {
    var c := code + more;
    forall i: nat | i < |c| ensures OperandsFine(c, i, n, k) && NextFine(c, i, m) {
      if i < |code| {
        assert c[i] == code[i] && OperandsFine(code, i, n, k) && NextFine(code, i, m);
        if i + 1 < |code| { assert c[i + 1] == code[i + 1]; }
      }
    }
  }

  /** The code before an instruction that is emitted. */
  lemma FineDischarged(s: Fs, i: Instr, n: nat)
    requires Fine(s.code, |s.code|, n, s.k) && ListOk(s.code, s.jpc)
    ensures var p := PatchList(s.code, s.jpc, |s.code|, None, |s.code|);
            Fine(p, |p|, n, s.k) && Emit(s, i).code == p + [i] && |p| == |s.code|
  {
    PatchListSpec(s.code, s.jpc, |s.code|, None, |s.code|);
    FinePatched(s.code, PatchList(s.code, s.jpc, |s.code|, None, |s.code|), s.jpc, |s.code|, None, |s.code|, |s.code|, n, s.k);
  }

  /** Emitting: nothing jumps behind the new instruction. */
  lemma FineEmit(s: Fs, i: Instr, n: nat)
    requires Fine(s.code, |s.code|, n, s.k) && ListOk(s.code, s.jpc) && Plain(i) && OperandsFine([i], 0, n, s.k)
    ensures var t := Emit(s, i); Fine(t.code, |s.code|, n, s.k) && t.k == s.k && |t.code| == |s.code| + 1
  {
    hide PatchList;
    FineDischarged(s, i, n);
    FineAppend(PatchList(s.code, s.jpc, |s.code|, None, |s.code|), [i], |s.code|, n, s.k);
  }

  lemma FineJump(s: Fs, n: nat)
    requires Fine(s.code, |s.code|, n, s.k)
    ensures var t := Jump(s).0; Fine(t.code, |t.code|, n, t.k) && t.k == s.k
  {
    FineMore(s.code, |s.code|, n, s.k, |s.code| + 1, s.k);
    FineAppend(s.code, [Jmp(NO_JUMP)], |s.code| + 1, n, s.k);
  }

  /** A test with its jump. */
  lemma FineCondJump(s: Fs, i: Instr, n: nat)
    requires Fine(s.code, |s.code|, n, s.k) && ListOk(s.code, s.jpc) && IsTest(i) && OperandsFine([i, Jmp(NO_JUMP)], 0, n, s.k)
    ensures var t := CondJump(s, i).0; Fine(t.code, |t.code|, n, s.k) && t.k == s.k
  {
    FineDischarged(s, i, n);
    var p := PatchList(s.code, s.jpc, |s.code|, None, |s.code|);
    var two := [i, Jmp(NO_JUMP)];
    hide PatchList;
    assert CondJump(s, i).0.code == p + two;
    FineMore(p, |p|, n, s.k, |p| + 2, s.k);
    FineAppend(p, two, |p| + 2, n, s.k);
  }

  /** The two loads of a truth value. */
  lemma FineLoads(s: Fs, reg: nat, n: nat)
    requires Fine(s.code, |s.code|, n, s.k) && ListOk(s.code, s.jpc) && reg < n
    ensures var t := Emit(Emit(s, LoadBool(reg, false, true)), LoadBool(reg, true, false));
            Fine(t.code, |t.code|, n, t.k) && t.k == s.k
  {
    FineDischarged(s, LoadBool(reg, false, true), n);
    var p := PatchList(s.code, s.jpc, |s.code|, None, |s.code|);
    var two := [LoadBool(reg, false, true), LoadBool(reg, true, false)];
    hide PatchList;
    var s1 := Emit(s, LoadBool(reg, false, true));
    assert s1.jpc == [] && Emit(s1, two[1]).code == p + two by { NoPatch(s1.code, |s1.code|); }
    FineMore(p, |p|, n, s.k, |p| + 2, s.k);
    FineAppend(p, two, |p| + 2, n, s.k);
  }

  lemma NoPatch(code: seq<Instr>, t: int)
    ensures PatchList(code, [], t, None, t) == code
  {}

  // ---- Values into registers ----------------------------------------------

  /** Nothing jumps behind an instruction that may still be given its register, or be
      taken back. */
  function Last(s: Fs, e: Exp): int {
    if e.k.VReloc? then |s.code| - 1 else |s.code|
  }

  ghost predicate FineAt(s: Fs, e: Exp, n: nat) {
    && Fine(s.code, Last(s, e), n, s.k)
    && (e.k.VNonReloc? ==> e.k.r < n) && (e.k.VK? ==> e.k.i < |s.k|)
  }

  lemma DischargeFine(s: Fs, e: Exp, reg: nat, n: nat)
    requires Good(s, e) && !e.k.VJmp? && FineAt(s, e, n) && reg < n
    ensures var (t, f) := DischargeTo(s, e, reg); FineAt(t, f, n) && s.k <= t.k
  {
    hide Paired, Emit;
    match e.k
    case VNil => EmitFine(s, LoadNil(reg, reg), n);
    case VTrue => EmitFine(s, LoadBool(reg, true, false), n);
    case VFalse => EmitFine(s, LoadBool(reg, false, false), n);
    case VK(i) => EmitFine(s, LoadK(reg, i), n);
    case VKNum(x) =>
      var (s1, i) := AddK(s, Num(x));
      FineMore(s.code, |s.code|, n, s.k, |s.code|, s1.k);
      EmitFine(s1, LoadK(reg, i), n);
    case VReloc(pc) => SetAFine(s, e, reg, n);
    case VNonReloc(r) => if r != reg { EmitFine(s, Move(reg, r), n); }
  }

  lemma EmitFine(s: Fs, i: Instr, n: nat)
    requires Fine(s.code, |s.code|, n, s.k) && ListOk(s.code, s.jpc) && Plain(i) && OperandsFine([i], 0, n, s.k)
    ensures var t := Emit(s, i); Fine(t.code, |t.code|, n, t.k) && t.k == s.k
  {
    FineEmit(s, i, n);
    hide Emit;
    var t := Emit(s, i);
    FineMore(t.code, |s.code|, n, s.k, |t.code|, t.k);
  }

  lemma SetAFine(s: Fs, e: Exp, reg: nat, n: nat)
    requires Good(s, e) && e.k.VReloc? && FineAt(s, e, n) && reg < n
    ensures var (t, f) := DischargeTo(s, e, reg); FineAt(t, f, n) && t.k == s.k
  {
    hide ListOk, Paired;
    var c, pc := s.code, e.k.pc;
    var t := DischargeTo(s, e, reg).0;
    forall i: nat | i < |c| ensures OperandsFine(t.code, i, n, t.k) && NextFine(t.code, i, |c|) {
      assert OperandsFine(c, i, n, s.k) && NextFine(c, i, Last(s, e)) by { assert c[i] == c[i]; }
      if i + 1 < |c| { assert c[i + 1] == c[i + 1]; }
    }
  }

  lemma AnyRegFine(s: Fs, e: Exp, n: nat)
    requires Good(s, e) && !e.k.VJmp? && FineAt(s, e, n) && s.freereg < n
    ensures var (t, f) := DischargeToAnyReg(s, e); FineAt(t, f, n) && s.k <= t.k && f.k.VNonReloc?
  {
    DischargeTwice(s, e);
    if !e.k.VNonReloc? {
      var u := ReserveReg(s);
      assert Good(u, e) by { hide ListOk, Paired; }
      DischargeFine(u, e, s.freereg, n);
    }
    hide DischargeTo;
  }

  // ---- Exits --------------------------------------------------------------

  lemma ExitsFine(s: Fs, e: Exp, reg: nat, pf: int, pt: int, n: nat)
    requires ListsGood(s, e) && Fine(s.code, |s.code|, n, s.k) && reg < n
    requires forall j <- e.f :: !Valued(s.code, j) ==> InCode(pf, |s.code|)
    requires forall j <- e.t :: !Valued(s.code, j) ==> InCode(pt, |s.code|)
    ensures var t := PatchExits(s, e, reg, pf, pt); Fine(t.code, |t.code|, n, t.k)
  {
    hide Paired;
    var c := s.code;
    var p := PatchList(c, e.f, |c|, Some(reg), pf);
    PatchListSpec(c, e.f, |c|, Some(reg), pf);
    FinePatched(c, p, e.f, |c|, Some(reg), pf, |c|, n, s.k);
    PatchedApart(c, p, e.f, |c|, Some(reg), pf, e.t);
    var q := PatchList(p, e.t, |c|, Some(reg), pt);
    PatchListSpec(p, e.t, |c|, Some(reg), pt);
    FinePatched(p, q, e.t, |c|, Some(reg), pt, |c|, n, s.k);
  }

  lemma CloseFine(s: Fs, e: Exp, reg: nat, n: nat)
    requires Closing(s, e, reg) && Fine(s.code, |s.code|, n, s.k) && reg < n
    ensures var t := CloseJumps(s, e, reg); Fine(t.code, |t.code|, n, t.k) && t.k == s.k
  {
    hide Paired, Emit, Fits, Since;
    CloseForm(s, e, reg);
    var g := e.(k := VNonReloc(reg));
    if e.t == [] && e.f == [] {
    } else if NeedValue(s.code, e.t) || NeedValue(s.code, e.f) {
      LoadersGood(s, e, reg);
      LoadersFine(s, e, reg, n);
      var (u, pf) := Loaders(s, e, reg);
      ExitsFine(u, g, reg, pf, pf + 1, n);
    } else {
      ExitsFine(s, g, reg, NO_JUMP, NO_JUMP, n);
    }
    hide PatchExits, Loaders;
  }

  lemma LoadersFine(s: Fs, e: Exp, reg: nat, n: nat)
    requires Closing(s, e, reg) && Fine(s.code, |s.code|, n, s.k) && reg < n
    ensures var u := Loaders(s, e, reg).0; Fine(u.code, |u.code|, n, u.k) && u.k == s.k
  {
    hide Paired, Emit, ListOk;
    if e.k.VJmp? {
      FineLoads(s, reg, n) by { assert ListOk(s.code, s.jpc); }
    } else {
      FineJump(s, n);
      var s1 := Jump(s).0;
      FineLoads(s1, reg, n) by { NoList(s1.code); }
    }
  }

  lemma ExpToRegFine(s: Fs, e: Exp, reg: nat, n: nat)
    requires Good(s, e) && FineAt(s, e, n) && reg < n
    ensures var t := ExpToReg(s, e, reg).0; Fine(t.code, |t.code|, n, t.k) && s.k <= t.k
  {
    hide Paired, ListOk, Emit, DischargeTo, CloseJumps, Fits, Since;
    DischargeTwice(s, e);
    if e.k.VJmp? {
      JoinedClosing(s, e, reg);
      assert DischargeToReg(s, e, reg) == (s, e) by { JumpStays(s, e, reg); }
      CloseFine(s, Joined(e), reg, n);
    } else {
      DischargeGood(s, e, reg);
      DischargeFine(s, e, reg, n);
      var (t, f) := DischargeTo(s, e, reg);
      assert Closing(t, f, reg);
      CloseFine(t, f, reg, n);
    }
  }

  lemma JumpStays(s: Fs, e: Exp, reg: nat)
    requires e.k.VJmp?
    ensures DischargeToReg(s, e, reg) == (s, e)
  {}

  lemma FineReg(s: Fs, u: Fs, e: Exp, n: nat)
    requires FineAt(s, e, n) && u == s.(freereg := u.freereg)
    ensures FineAt(u, e, n)
  {}

  /** An operand that is put where a comparison can use it. */
  lemma ExpToRkFine(s: Fs, e: Exp, n: nat)
    requires Good(s, e) && Base(s, e) >= s.nactvar && FineAt(s, e, n) && Base(s, e) < n
    ensures var (t, f) := ExpToRk(s, e);
            Fine(t.code, |t.code|, n, t.k) && s.k <= t.k && (f.k.VK? || f.k.VNonReloc?) && RkFine(RkOf(f), n, t.k)
  {
    hide Paired, ListOk, ExpToReg, Fits, Since, Fine;
    ExpToRkForm(s, e);
    ExpToRkGood(s, e);
    if DirectKind(s, e) {
      if !e.k.VNonReloc? && !e.k.VK? {
        var v := LiteralValue(e.k);
        FineMore(s.code, |s.code|, n, s.k, |s.code|, AddK(s, v).0.k);
      }
    } else {
      var u := s.(freereg := Base(s, e) + 1);
      GoodReg(s, u, e);
      FineReg(s, u, e, n);
      ExpToRegFine(u, e, Base(s, e), n);
      ExpToRegGood(u, e, Base(s, e));
    }
  }

  // ---- Tests --------------------------------------------------------------

  lemma InvertFine(s: Fs, pc: nat, m: int, n: nat)
    requires Fine(s.code, m, n, s.k)
    ensures var t := InvertJump(s, pc); Fine(t.code, m, n, t.k) && t.k == s.k && |t.code| == |s.code|
  {
    var c, t := s.code, InvertJump(s, pc);
    forall i: nat | i < |c| ensures OperandsFine(t.code, i, n, t.k) && NextFine(t.code, i, m) {
      assert OperandsFine(c, i, n, s.k) && NextFine(c, i, m) by { assert c[i] == c[i]; }
      if i + 1 < |c| { assert c[i + 1] == c[i + 1]; }
    }
  }

  /** Taking the last instruction back. */
  lemma PoppedFine(s: Fs, e: Exp, n: nat)
    requires Good(s, e) && FineAt(s, e, n) && e.k.VReloc? && s.code[e.k.pc].Not?
    ensures var t := Popped(s); Fine(t.code, |t.code|, n, t.k) && t.k == s.k && s.code[e.k.pc].b < n
  {
    hide Paired, ListOk;
    var c, t := s.code, Popped(s);
    assert OperandsFine(c, e.k.pc, n, s.k) by { assert c[e.k.pc] == c[e.k.pc]; }
    forall i: nat | i < |t.code| ensures OperandsFine(t.code, i, n, t.k) && NextFine(t.code, i, |t.code|) {
      assert OperandsFine(c, i, n, s.k) && NextFine(c, i, |c| - 1) by { assert c[i] == c[i]; }
      if i + 1 < |c| { assert c[i + 1] == c[i + 1]; }
    }
  }

  lemma JumpOnCondFine(s: Fs, e: Exp, cond: bool, shape: Shape, n: nat)
    requires Good(s, e) && Base(s, e) >= s.nactvar && ShapeIs(s, e.k, shape) && FineAt(s, e, n) && s.freereg < n + (if e.k.VNonReloc? then 1 else 0) && !e.k.VJmp?
    ensures var t := JumpOnCond(s, e, cond).0; Fine(t.code, |t.code|, n, t.k) && s.k <= t.k
  {
    hide Paired, CondJump, Fits, Since, Fine;
    if e.k.VReloc? && s.code[e.k.pc].Not? {
      PoppedGood(s, e);
      PoppedFine(s, e, n);
      FineCondJump(Popped(s), Test(s.code[e.k.pc].b, !cond), n);
    } else {
      AnyRegGood(s, e, shape);
      if !e.k.VNonReloc? { AnyRegFine(s, e, n); } else { DischargeTwice(s, e); }
      var (s1, f) := DischargeToAnyReg(s, e);
      hide DischargeToAnyReg, ListOk;
      FineCondJump(FreeExp(s1, f), TestSet(NO_REG, f.k.r, cond), n);
    }
  }

  lemma GoIfFine(s: Fs, e: Exp, truth: bool, shape: Shape, n: nat)
    requires Good(s, e) && Base(s, e) >= s.nactvar && ShapeIs(s, e.k, shape) && FineAt(s, e, n) && Base(s, e) < n
    ensures var t := GoIf(s, e, truth).0; Fine(t.code, |t.code|, n, t.k) && s.k <= t.k
  {
    hide Paired, ListOk, JumpOnCond, Jump, InvertJump, Fine, Fits, Since;
    GoIfForm(s, e, truth);
    if SureKind(e.k, truth) {
    } else if e.k == (if truth then VFalse else VTrue) {
      FineJump(s, n);
    } else if e.k.VJmp? {
      InvertFine(s, e.k.pc, |s.code|, n);
    } else {
      JumpOnCondFine(s, e, !truth, shape, n);
    }
  }

  // ---- Negation -----------------------------------------------------------

  lemma NegatedFine(s: Fs, e: Exp, shape: Shape, n: nat)
    requires Good(s, e) && Base(s, e) >= s.nactvar && ShapeIs(s, e.k, shape) && FineAt(s, e, n) && Base(s, e) < n
    ensures var (u, k) := Negated(s, e); FineAt(u, e.(k := k), n) && s.k <= u.k
  {
    hide Paired, Emit, Fits, Since, Fine, InvertJump;
    match e.k
    case VJmp(pc) => InvertFine(s, pc, |s.code|, n);
    case VReloc(_) => NotFine(s, e, shape, n);
    case VNonReloc(_) => NotFine(s, e, shape, n);
    case _ =>
  }

  lemma NotFine(s: Fs, e: Exp, shape: Shape, n: nat)
    requires Good(s, e) && Base(s, e) >= s.nactvar && ShapeIs(s, e.k, shape) && FineAt(s, e, n) && Base(s, e) < n
    requires e.k.VReloc? || e.k.VNonReloc?
    ensures var (u, k) := Negated(s, e); FineAt(u, e.(k := k), n) && s.k <= u.k
  {
    hide Paired, Emit, Fits, Since, Fine;
    AnyRegGood(s, e, shape);
    if !e.k.VNonReloc? { AnyRegFine(s, e, n); } else { DischargeTwice(s, e); }
    var (s3, e3) := DischargeToAnyReg(s, e);
    hide DischargeToAnyReg, ListOk;
    var s4 := FreeExp(s3, e3);
    FineEmit(s4, Not(0, e3.k.r), n);
  }

  lemma CodeNotFine(s: Fs, e: Exp, shape: Shape, n: nat)
    requires Good(s, e) && Base(s, e) >= s.nactvar && ShapeIs(s, e.k, shape) && FineAt(s, e, n) && Base(s, e) < n
    ensures var (t, f) := CodeNot(s, e); FineAt(t, f, n) && s.k <= t.k
  {
    hide Paired, Fits, Since, Negated, Fine;
    CodeNotForm(s, e);
    NegatedGood(s, e, shape);
    NegatedFine(s, e, shape, n);
    var (u, k) := Negated(s, e);
    var p := RemoveValues(u.code, e.t);
    RemoveValuesSpec(u.code, e.t);
    RemovedFits(u.code, p, e.t);
    RemoveValuesSpec(p, e.f);
    var m := Last(u, e.(k := k));
    FineRemoved(u.code, p, e.t, m, n, u.k);
    FineRemoved(p, RemoveValues(p, e.f), e.f, m, n, u.k);
  }

  // ---- Whole expressions --------------------------------------------------

  /** How many registers an expression needs above those in use. */
  function Need(e: Expr): (r: nat)
    ensures r >= 1
  {
    match e
    case ENot(a) => Need(a)
    case ELogic(_, a, b) => if Need(a) > Need(b) then Need(a) else Need(b)
    case ECompare(_, a, b) => if Need(a) > Need(b) then Need(a) else Need(b) + 1
    case _ => 1
  }

  /** Globals are named by string constants. */
  predicate GlobalsIn(e: Expr, k: seq<Value>) {
    match e
    case EGlobal(g) => g < |k| && k[g].Str?
    case ECall(g) => g < |k| && k[g].Str?
    case ENot(a) => GlobalsIn(a, k)
    case ELogic(_, a, b) => GlobalsIn(a, k) && GlobalsIn(b, k)
    case ECompare(_, a, b) => GlobalsIn(a, k) && GlobalsIn(b, k)
    case _ => true
  }

  lemma {:induction false} GlobalsMore(e: Expr, k: seq<Value>, k': seq<Value>)
    requires GlobalsIn(e, k) && k <= k'
    ensures GlobalsIn(e, k')
    decreases e
  {
    match e
    case ENot(a) => GlobalsMore(a, k, k');
    case ELogic(_, a, b) => GlobalsMore(a, k, k'); GlobalsMore(b, k, k');
    case ECompare(_, a, b) => GlobalsMore(a, k, k'); GlobalsMore(b, k, k');
    case _ => assert forall i: nat :: i < |k| ==> k'[i] == k[i];
  }

  /** Everything is there that compiling the expression takes. */
  ghost predicate Room(s: Fs, e: Expr, n: nat) {
    && Ready(s) && LocalsBelow(e, s.nactvar) && Fine(s.code, |s.code|, n, s.k) && GlobalsIn(e, s.k)
    && s.freereg + Need(e) <= n
  }

  lemma {:induction false} GenFine(s: Fs, e: Expr, n: nat)
    requires Room(s, e, n)
    ensures var (t, f) := Compiled(s, e); FineAt(t, f, n) && s.k <= t.k
    decreases e
  {
    hide Paired, ListOk, Fits, Since, Compiled, ShapeIs, Fine, GoIf, CodeNot, ExpToRk, Good, ListsGood, FineAt;
    GenGood(s, e);
    match e
    case ENot(a) =>
      GenGood(s, a);
      NotGood(s, a);
      GenFine(s, a, n);
      var (t, f) := Compiled(s, a);
      SinceActive(s, Nothing, t, f);
      CodeNotFine(t, f, ShapeOf(a), n);
    case ELogic(op, a, b) => LogicFine(s, op, a, b, n);
    case ECompare(op, a, b) => CompareFine(s, op, a, b, n);
    case _ => LeafFine(s, e, n);
  }

  lemma LeafFine(s: Fs, e: Expr, n: nat)
    requires Room(s, e, n) && Leaf(e)
    ensures var (t, f) := Compiled(s, e); FineAt(t, f, n) && s.k <= t.k
  {
    hide Paired, ListOk, Fits, Since;
    match e
    case EGlobal(g) =>
      hide Emit, Fine;
      FineEmit(s, GetGlobal(0, g), n);
      GlobalGood(s, g);
    case ECall(g) => CallFine(s, g, n);
    case _ =>
      SimpleLeaf(s, e);
      FineMore(s.code, |s.code|, n, s.k, |s.code|, Consts(e, s.k));
      hide Fine;
  }

  lemma CallFine(s: Fs, g: nat, n: nat)
    requires Room(s, ECall(g), n)
    ensures var (t, f) := Compiled(s, ECall(g)); FineAt(t, f, n) && s.k <= t.k
  {
    hide Paired, ListOk, Fits, Since, Emit, Fine, Compiled;
    CallGood(s, g);
    var i := GetGlobal(s.freereg, g);
    EmitFine(s, i, n);
    var s1 := Emit(s, i);
    assert s1.jpc == [] by { EmitJpc(s, i); }
    NoJumps(s1.code);
    EmitFine(s1, Call(s.freereg), n);
  }

  lemma EmitJpc(s: Fs, i: Instr)
    ensures Emit(s, i).jpc == []
  {}

  lemma LogicFine(s: Fs, op: bool, a: Expr, b: Expr, n: nat)
    requires Room(s, ELogic(op, a, b), n)
    ensures var (t, f) := Compiled(s, ELogic(op, a, b)); FineAt(t, f, n) && s.k <= t.k
    decreases ELogic(op, a, b), 0
  {
    hide Paired, ListOk, Fits, Since, Compiled, ShapeIs, Fine, GoIf, SameList, FineAt;
    GenGood(s, a);
    GenFine(s, a, n);
    var (s1, e1) := Compiled(s, a);
    SinceActive(s, Nothing, s1, e1);
    GoIfGood(s1, e1, op, ShapeOf(a));
    GoIfFine(s1, e1, op, ShapeOf(a), n);
    var (s2, e2) := GoIf(s1, e1, op);
    SinceActive(s1, e1, s2, e2.(k := VTrue));
    GenGood(s2, b);
    GlobalsMore(b, s.k, s2.k);
    GenFine(s2, b, n);
    LogicGood(s, op, a, b);
    var (s4, e4) := Compiled(s2, b);
    FineLists(s4, e4, SetList(e4, !op, ListOf(e4, !op) + ListOf(e2, !op)), n);
  }

  lemma FineLists(s: Fs, e: Exp, f: Exp, n: nat)
    requires FineAt(s, e, n) && f.k == e.k
    ensures FineAt(s, f, n)
  {}

  /** Both operands of a comparison in their places. */
  lemma OperandsInPlace(s: Fs, op: CompareOp, a: Expr, b: Expr, n: nat)
    requires Room(s, ECompare(op, a, b), n)
    ensures var (s1, e1) := Compiled(s, a); var (s2, e2) := ExpToRk(s1, e1);
            var (s3, e3) := Compiled(s2, b); var (s4, e4) := ExpToRk(s3, e3);
            && Sound(s, a, s1, e1) && Sound(s2, b, s3, e3)
            && Fine(s4.code, |s4.code|, n, s4.k) && s.k <= s4.k && RkFine(RkOf(e2), n, s4.k) && RkFine(RkOf(e4), n, s4.k)
    decreases ECompare(op, a, b), 0
  {
    hide Paired, ListOk, Fits, Since, Compiled, ShapeIs, Fine, ExpToRk, SameList, CondJump;
    GenGood(s, a);
    GenFine(s, a, n);
    var (s1, e1) := Compiled(s, a);
    SinceActive(s, Nothing, s1, e1);
    ExpToRkGood(s1, e1);
    ExpToRkFine(s1, e1, n);
    var (s2, e2) := ExpToRk(s1, e1);
    SinceActive(s1, e1, s2, Nothing);
    GenGood(s2, b);
    GlobalsMore(b, s.k, s2.k);
    GenFine(s2, b, n);
    var (s3, e3) := Compiled(s2, b);
    SinceActive(s2, Nothing, s3, e3);
    ExpToRkFine(s3, e3, n);
  }

  lemma CompareFine(s: Fs, op: CompareOp, a: Expr, b: Expr, n: nat)
    requires Room(s, ECompare(op, a, b), n)
    ensures var (t, f) := Compiled(s, ECompare(op, a, b)); FineAt(t, f, n) && s.k <= t.k
    decreases ECompare(op, a, b), 1
  {
    hide Paired, ListOk, Fits, Since, Compiled, ShapeIs, Fine, ExpToRk, SameList, CondJump, Sound;
    OperandsInPlace(s, op, a, b, n);
    var (s1, e1) := Compiled(s, a);
    var (s2, e2) := ExpToRk(s1, e1);
    var (s3, e3) := Compiled(s2, b);
    var (s4, e4) := ExpToRk(s3, e3);
    CompareMid(s, op, a, b);
    var u := FreeExp(FreeExp(s4, e4), e2);
    FineCondJump(u, CompareInstr(op, RkOf(e2), RkOf(e4)), n);
  }
}
