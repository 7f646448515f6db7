/** Tests and negation: `luaK_goiftrue`, `luaK_goiffalse` and `codenot`. */
module CodeTests {
  import opened CodeVm
  import opened CodeTree
  import opened CodeGen
  import opened CodeLists
  import opened CodeState
  import opened CodeExits
  import opened CodeDischarge
  import opened CodeClose
  import opened CodeOperand

  /** The kind of an expression is the one its shape foretells. */
  predicate ShapeIs(s: Fs, k: Kind, shape: Shape) {
    match shape
    case SNil => k == VNil
    case STrue => k == VTrue
    case SFalse => k == VFalse
    case SNum(n) => k == VKNum(n)
    case SStr(v) => k.VK? && k.i < |s.k| && s.k[k.i] == Str(v) && k.i == IndexOf(s.k, Str(v))
    case SReg => k.VNonReloc?
    case SOpen => k.VReloc? && k.pc < |s.code| && s.code[k.pc].GetGlobal?
    case SNot => k.VReloc? && k.pc < |s.code| && s.code[k.pc].Not?
    case SJump => k.VJmp?
  }

  // ---- A test and its jump ------------------------------------------------

  /** The expression after a test whose jump leaves it for the other truth value. */
  function Left(e: Exp, truth: bool, l: seq<nat>): Exp {
    SetList(e.(k := VTrue), !truth, ListOf(e, !truth) + l)
  }

  lemma CondJumpGood(s: Fs, e: Exp, i: Instr, truth: bool)
    requires ListsGood(s, e) && Inert(e.k) && IsTest(i)
    ensures var (t, l) := CondJump(s, i); var n := |s.code|;
            && l == [n + 1] && |t.code| == n + 2 && t.code[n] == i && t.code[n + 1] == Jmp(NO_JUMP)
            && t.jpc == [] && t.freereg == s.freereg && t.k == s.k
            && ListsGood(t, Left(e, truth, l)) && Since(s, e, t, Left(e, truth, l))
            && SameList(s.code, t.code, e.t) && SameList(s.code, t.code, e.f)
            && Fits(t.code, Emit(s, i).code)
  {
    hide Patched, Paired, Since;
    var n := |s.code|;
    var u := Emit(s, i);
    var (t, l) := CondJump(s, i);
    EmitSpec(s, i);
    EmitApart(s, i, e.t);
    EmitApart(s, i, e.f);
    hide Emit, Apart;
    ListMore(u.code, [Jmp(NO_JUMP)], e.t);
    ListMore(u.code, [Jmp(NO_JUMP)], e.f);
    SameListTrans(s.code, u.code, t.code, e.t);
    SameListTrans(s.code, u.code, t.code, e.f);
    FitsMore(u.code, [Jmp(NO_JUMP)]);
    FitsTrans(t.code, u.code, s.code);
    CondJumpPaired(s, i);
    CondJumpSince(s, e, i, truth);
    LeftGood(s, e, t, truth, l);
  }

  lemma CondJumpPaired(s: Fs, i: Instr)
    requires ListOk(s.code, s.jpc) && Paired(s.code) && IsTest(i)
    ensures Paired(CondJump(s, i).0.code)
  {
    var n := |s.code|;
    var t := CondJump(s, i).0;
    EmitSpec(s, i);
    var p := Emit(s, i).code[..n];
    PatchedPaired(s.code, p, s.jpc, n, None, n);
    assert t.code == p + [i, Jmp(NO_JUMP)];
    forall q: nat | q < |t.code| && t.code[q].TestSet? ensures q + 1 < |t.code| && t.code[q + 1].Jmp? {
      if q < n { assert t.code[q] == p[q]; assert p[q + 1] == t.code[q + 1]; }
    }
  }

  lemma CondJumpSince(s: Fs, e: Exp, i: Instr, truth: bool)
    requires ListsGood(s, e) && Inert(e.k) && IsTest(i)
    ensures var (t, l) := CondJump(s, i); Since(s, e, t, Left(e, truth, l))
  {
    var n := |s.code|;
    var u := Emit(s, i);
    var (t, l) := CondJump(s, i);
    EmitSpec(s, i);
    FitsMore(u.code, [Jmp(NO_JUMP)]);
    FitsTrans(t.code, u.code, s.code);
    assert s.code[..n] == s.code;
    forall q: nat | q < n && q !in Owned(s, e) && !(q + 1 in Owned(s, e) && s.code[q].TestSet?)
      ensures t.code[q] == s.code[q]
    {
      assert t.code[q] == u.code[..n][q];
    }
    CondJumpLost(s, e, i, truth);
    hide Patched, Fits, NoneLost;
  }

  lemma CondJumpLost(s: Fs, e: Exp, i: Instr, truth: bool)
    requires ListsGood(s, e) && Inert(e.k) && IsTest(i)
    ensures var (t, l) := CondJump(s, i); NoneLost(s, e, t, Left(e, truth, l))
  {
    EmitLost(s, e, i, VTrue);
    hide Paired, ListOk, Emit;
    var u := Emit(s, i);
    var (t, l) := CondJump(s, i);
    assert l == [|u.code|] && t.code == u.code + [Jmp(NO_JUMP)];
    assert |u.code| in l;
    forall j: nat | Pending(t.code, j) && j !in Owned(t, Left(e, truth, l)) ensures Pending(u.code, j) && j !in Owned(u, e.(k := VTrue)) {
      assert j != |u.code|;
    }
  }

  lemma LeftGood(s: Fs, e: Exp, t: Fs, truth: bool, l: seq<nat>)
    requires Ready(t) && t.jpc == [] && ListOk(t.code, e.t) && ListOk(t.code, e.f) && Apart(e.t, e.f) && ListOk(t.code, l)
    requires ListOk(s.code, e.t) && ListOk(s.code, e.f) && forall j <- l :: j >= |s.code|
    ensures ListsGood(t, Left(e, truth, l))
  {
    hide Paired;
    forall j <- e.t + e.f ensures j !in l { assert Pending(s.code, j); }
    JoinLists(t.code, ListOf(e, !truth), l);
  }

  lemma JoinLists(code: seq<Instr>, l: seq<nat>, m: seq<nat>)
    requires ListOk(code, l) && ListOk(code, m) && Apart(l, m)
    ensures ListOk(code, l + m)
  {
    var a := l + m;
    forall i, j | 0 <= i < j < |a| ensures a[i] != a[j] {
      if i < |l| <= j { assert a[i] in l && a[j] == m[j - |l|] && a[j] in m; }
    }
  }

  // ---- Running a test -----------------------------------------------------

  /** A test that does not jump. */
  lemma TestOn(x: Ctx, t: Fs, n: nat, regs: Regs, log: seq<Event>, log1: seq<Event>)
    requires Gets(x, n, regs, log) && n < |x.code| && |t.code| == n + 2
    requires Step(x.env, x.code, Conf(n, regs, log)).value == Conf(n + 2, regs, log1)
    ensures At(x, t, None, log1)
  {
    ReachesStep(x.env, x.code, x.c0, Conf(n, regs, log));
    assert Yields(x.env, t.code, VTrue, regs, log1) == Result(Bool(true), log1);
    assert Falls(x, t.code, |t.code|, log1, VTrue, Result(Bool(true), log1));
  }

  /** A test that jumps. */
  lemma TestOff(x: Ctx, t: Fs, n: nat, regs: Regs, log: seq<Event>, log1: seq<Event>, l: seq<nat>, carry: Option<Value>)
    requires Gets(x, n, regs, log) && n < |x.code|
    requires Step(x.env, x.code, Conf(n, regs, log)).value
          == Conf(Target(x.code, n + 1), AfterJump(x.code, n + 1, regs), log1)
    requires CarryOf(t.code, n + 1, regs) == carry && n + 1 in l
    ensures LeavesBy(x, t.code, l, carry, log1)
  {
    ReachesStep(x.env, x.code, x.c0, Conf(n, regs, log));
    assert Takes(x, t.code, n + 1, regs, carry, log1);
    assert Yields(x.env, t.code, VTrue, regs, log1) == Result(Bool(true), log1);
  }

  /** Where control is after a test for `truth`. */
  ghost predicate Goes(x: Ctx, t: Fs, f: Exp, truth: bool, w: Way, log: seq<Event>) {
    match w
    case Through(h) => At(x, t, h, log)
    case Away(c) => LeavesBy(x, t.code, ListOf(f, !truth), c, log)
  }

  /** `OP_TESTSET` on the register that holds the value. */
  lemma TestSetRuns(x: Ctx, s: Fs, e: Exp, truth: bool, v: Value, held: Option<Value>, log: seq<Event>)
    requires ListsGood(s, e) && e.k.VNonReloc? && Ends(x, s, Exp(e.k, [], []), v, held, log)
    requires Fits(x.code, CondJump(s, TestSet(NO_REG, e.k.r, !truth)).0.code)
    ensures var (t, l) := CondJump(s, TestSet(NO_REG, e.k.r, !truth));
            Goes(x, t, Left(e, truth, l), truth, if IsFalse(v) != truth then Through(None) else Away(Some(v)), log)
  {
    hide Fits, ListsGood, Since, SameList, Ends, Reaches, Agree;
    var i := TestSet(NO_REG, e.k.r, !truth);
    var n := |s.code|;
    var (t, l) := CondJump(s, i);
    CondJumpGood(s, e, i, truth);
    LandsTest(x, s, e, i, v, held, log);
    var regs :| Gets(x, n, regs, log) && Yields(x.env, s.code, e.k, regs, log) == Result(v, log);
    LooseTest(x.code, t.code, n);
    hide Gets, CondJump;
    assert Get(regs, e.k.r) == v;
    if IsFalse(v) != truth {
      TestOn(x, t, n, regs, log, log);
    } else {
      TestOff(x, t, n, regs, log, log, ListOf(Left(e, truth, l), !truth), Some(v));
    }
  }

  lemma LandsTest(x: Ctx, s: Fs, e: Exp, i: Instr, v: Value, held: Option<Value>, log: seq<Event>)
    requires ListsGood(s, e) && e.k.VNonReloc? && Ends(x, s, Exp(e.k, [], []), v, held, log)
    requires IsTest(i) && Fits(x.code, CondJump(s, i).0.code)
    ensures Falls(x, s.code, |s.code|, log, e.k, Result(v, log))
  {
    hide Fits, ListOk, Paired, Since, SameList, Ends, CondJump, Emit;
    CondJumpGood(s, e, i, true);
    FitsTrans(x.code, CondJump(s, i).0.code, Emit(s, i).code);
    EmitFits(x.code, s, i);
    LandsEnd(x, s, Exp(e.k, [], []), i, v, held, log);
  }

  lemma EmitFits(final: seq<Instr>, s: Fs, i: Instr)
    requires ListOk(s.code, s.jpc) && Paired(s.code) && Fits(final, Emit(s, i).code)
    ensures Fits(final, Emit(s, i).code[..|s.code|])
  {
    var n := |s.code|;
    var t := Emit(s, i);
    EmitSpec(s, i);
    if n > 0 {
      PatchedPaired(s.code, t.code[..n], s.jpc, n, None, n);
      assert t.code[..n][n - 1] == t.code[n - 1];
    }
    hide Patched;
    FitsCut(final, t.code, n);
  }

  /** Whatever becomes of a test that can still be resolved, it tests the same. */
  lemma LooseTest(final: seq<Instr>, code: seq<Instr>, n: nat)
    requires Fits(final, code) && n + 1 < |code| && code[n].TestSet? && code[n + 1] == Jmp(NO_JUMP)
    ensures n + 1 < |final| && Resolves(code[n], final[n]) && final[n + 1].Jmp?
  {
    assert Loose(code, n);
  }

  /** A test that can deliver nothing. */
  lemma PlainTestRuns(x: Ctx, t: Fs, n: nat, regs: Regs, log: seq<Event>, log1: seq<Event>, l: seq<nat>, jumps: bool)
    requires Gets(x, n, regs, log) && |t.code| == n + 2 && Fits(x.code, t.code) && n + 1 in l
    requires t.code[n].Test? || t.code[n].Cmp?
    requires t.code[n + 1] == Jmp(NO_JUMP)
    requires Step(x.env, x.code, Conf(n, regs, log)).value == Conf(Branch(x.code, n, jumps), regs, log1)
    ensures if jumps then LeavesBy(x, t.code, l, None, log1) else At(x, t, None, log1)
  {
    Settled(x.code, t.code, n);
    if jumps { TestOff(x, t, n, regs, log, log1, l, None); } else { TestOn(x, t, n, regs, log, log1); }
  }

  // ---- jumponcond ---------------------------------------------------------

  /** The state in which a value is about to be tested in its register. */
  lemma AnyRegGood(s: Fs, e: Exp, shape: Shape)
    requires Good(s, e) && Base(s, e) >= s.nactvar && !e.k.VJmp? && ShapeIs(s, e.k, shape)
    ensures var (t, f) := DischargeToAnyReg(s, e); var u := FreeExp(t, f);
            && f == e.(k := f.k) && f.k.VNonReloc? && ListsGood(u, f) && Since(s, e, u, f)
            && u.freereg == Base(s, e) && u.k == LoadedConst(shape, s.k) && u == t.(freereg := u.freereg)
            && SameList(s.code, u.code, e.t) && SameList(s.code, u.code, e.f)
  {
    hide Fits, ListOk, Paired;
    DischargeTwice(s, e);
    if e.k.VNonReloc? {
      SinceSelf(s, e);
      SinceFree(s, e, s, e, FreeExp(s, e));
    } else {
      var s1 := ReserveReg(s);
      assert Good(s1, e);
      DischargeGood(s1, e, s.freereg);
      var (t, f) := DischargeTo(s1, e, s.freereg);
      SinceReg(s, s1, e, t, f);
      SinceFree(s, e, t, f, FreeExp(t, f));
    }
  }

  lemma SinceFree(s: Fs, e: Exp, t: Fs, f: Exp, u: Fs)
    requires Since(s, e, t, f) && u == t.(freereg := u.freereg)
    ensures Since(s, e, u, f)
  {}

  lemma AnyRegRuns(x: Ctx, s: Fs, e: Exp, v: Value, held: Option<Value>, log: seq<Event>)
    requires Good(s, e) && Base(s, e) >= s.nactvar && !e.k.VJmp? && Ends(x, s, e, v, held, log)
    requires forall r <- x.live :: r < Base(s, e)
    requires var (t, f) := DischargeToAnyReg(s, e); Fits(x.code, t.code) && t.k <= x.env.k
    ensures var (t, f) := DischargeToAnyReg(s, e);
            f.k.VNonReloc? && exists h :: Ends(x, FreeExp(t, f), Exp(f.k, [], []), v, h, log)
  {
    hide Fits, ListOk, Paired;
    DischargeTwice(s, e);
    var (t, f) := DischargeToAnyReg(s, e);
    if e.k.VNonReloc? {
      EndsPlain(x, s, e, FreeExp(s, e), v, held, log);
    } else {
      var s1 := ReserveReg(s);
      EndsRegs(x, s, e, s1, v, held, log);
      assert Good(s1, e);
      DischargeGood(s1, e, s.freereg);
      DischargeRuns(x, s1, e, s.freereg, v, held, log);
      assert x.live - {s.freereg} == x.live;
      EndsPlain(x, t, Exp(f.k, [], []), FreeExp(t, f), v, None, log);
    }
  }

  lemma EndsRegs(x: Ctx, s: Fs, e: Exp, u: Fs, v: Value, held: Option<Value>, log: seq<Event>)
    requires Ends(x, s, e, v, held, log) && u == s.(freereg := u.freereg)
    ensures Ends(x, u, e, v, held, log)
  {
    ExitsReg(x, s, u, e, Outcome(On(v, held), log));
  }

  lemma EndsPlain(x: Ctx, s: Fs, e: Exp, u: Fs, v: Value, held: Option<Value>, log: seq<Event>)
    requires Ends(x, s, e, v, held, log) && e.k.VNonReloc? && u == s.(freereg := u.freereg)
    ensures Ends(x, u, Exp(e.k, [], []), v, held, log)
  {
    EndsRegs(x, s, e, u, v, held, log);
    var g := Exp(e.k, [], []);
    if held.None? && exists log0 :: Falls(x, u.code, Front(u, e), log0, e.k, Result(v, log)) {
      var log0 :| Falls(x, u.code, Front(u, e), log0, e.k, Result(v, log));
      assert Falls(x, u.code, Front(u, g), log0, g.k, Result(v, log));
    } else {
      assert Leaves(x, u.code, u.jpc, held, log, g.k, Result(v, log));
    }
  }

  /** `not x` is tested by testing `x`: the `OP_NOT` is taken back. */
  function Popped(s: Fs): Fs {
    if s.code == [] then s else s.(code := s.code[..|s.code| - 1])
  }

  lemma PoppedGood(s: Fs, e: Exp)
    requires Good(s, e) && e.k.VReloc?
    ensures ListsGood(Popped(s), e.(k := VTrue)) && Since(s, e, Popped(s), e.(k := VTrue))
    ensures SameList(s.code, Popped(s).code, e.t) && SameList(s.code, Popped(s).code, e.f)
  {
    var c := Popped(s).code;
    forall j <- e.t + e.f ensures Pending(c, j) && (Valued(c, j) <==> Valued(s.code, j)) { assert Pending(s.code, j); }
    FitsSelf(c);
    assert Paired(c) by {
      forall q: nat | q < |c| && c[q].TestSet? ensures q + 1 < |c| && c[q + 1].Jmp? { assert s.code[q] == c[q]; }
    }
  }

  // ---- luaK_goiftrue, luaK_goiffalse --------------------------------------

  /** `GoIf` before the list that comes here is closed. */
  function Tested(s: Fs, e: Exp, truth: bool): (Fs, seq<nat>) {
    if SureKind(e.k, truth) then (s, [])
    else if e.k == (if truth then VFalse else VTrue) then Jump(s)
    else if e.k.VJmp? then (if truth then InvertJump(s, e.k.pc) else s, [e.k.pc])
    else JumpOnCond(s, e, !truth)
  }

  lemma GoIfForm(s: Fs, e: Exp, truth: bool)
    requires Discharged(e.k)
    ensures var (t, l) := Tested(s, e, truth);
            GoIf(s, e, truth) == (PatchToHere(t, ListOf(e, truth)), SetList(SetList(e, truth, []), !truth, ListOf(e, !truth) + l))
  {
    DischargeTwice(s, e);
    hide JumpOnCond, Jump, InvertJump;
  }

  lemma InvertGood(s: Fs, e: Exp, truth: bool)
    requires Good(s, e) && e.k.VJmp?
    ensures var (t, l) := Tested(s, e, truth);
            && ListsGood(t, Left(e, truth, l)) && Since(s, e, t, Left(e, truth, l))
            && t == s.(code := t.code)
            && SameList(s.code, t.code, e.t) && SameList(s.code, t.code, e.f)
  {
    var (t, l) := Tested(s, e, truth);
    InvertLists(s, e, truth);
    InvertSince(s, e, truth);
    hide Since, Paired, Fits;
    JoinLists(t.code, ListOf(e, !truth), l);
  }

  lemma InvertLists(s: Fs, e: Exp, truth: bool)
    requires Good(s, e) && e.k.VJmp?
    ensures var (t, l) := Tested(s, e, truth);
            && t == s.(code := t.code) && Ready(t) && ListOk(t.code, l) && Apart(ListOf(e, !truth), l)
            && SameList(s.code, t.code, e.t) && SameList(s.code, t.code, e.f)
  {
    var (t, l) := Tested(s, e, truth);
    forall j <- e.t + e.f ensures Pending(t.code, j) && (Valued(t.code, j) <==> Valued(s.code, j)) && (Valued(s.code, j) ==> t.code[j - 1] == s.code[j - 1]) {
      assert Pending(s.code, j);
    }
    assert Pending(t.code, e.k.pc);
    assert Paired(t.code) by {
      forall q: nat | q < |t.code| && t.code[q].TestSet? ensures q + 1 < |t.code| && t.code[q + 1].Jmp? { assert s.code[q] == t.code[q]; }
    }
  }

  lemma InvertSince(s: Fs, e: Exp, truth: bool)
    requires Good(s, e) && e.k.VJmp?
    ensures var (t, l) := Tested(s, e, truth); Since(s, e, t, Left(e, truth, l))
  {
    hide Paired, ListOk, Good, Tested, Fits, Owned, NoneLost;
    GoodEdge(s, e);
    ComparedCode(s, e, truth);
    InvertedBefore(s, e, truth);
    var n := e.k.pc - 1;
    var (t, l) := Tested(s, e, truth);
    assert s.code[..n] == t.code[..n];
    assert t.code == t.code[..n] + t.code[n..];
    FitsMore(t.code[..n], t.code[n..]);
    InvertedOwned(s, e, t, truth);
    InvertedLost(s, e, t, Left(e, truth, l));
  }

  lemma InvertedLost(s: Fs, e: Exp, t: Fs, f: Exp)
    requires e.k.VJmp? && |t.code| == |s.code| == e.k.pc + 1 && e.k.pc >= 1 && Owned(t, f) == Owned(s, e) && t.code[e.k.pc - 1].Cmp?
    requires forall q: nat :: q < e.k.pc - 1 ==> t.code[q] == s.code[q]
    ensures NoneLost(s, e, t, f)
  {
    forall j: nat | Pending(t.code, j) && j !in Owned(t, f) ensures j < e.k.pc - 1 && Pending(s.code, j) {
      assert e.k.pc in Owned(s, e);
    }
  }

  lemma InvertedOwned(s: Fs, e: Exp, t: Fs, truth: bool)
    requires e.k.VJmp? && t == s.(code := t.code)
    ensures Owned(t, Left(e, truth, [e.k.pc])) == Owned(s, e)
  {
    var l := [e.k.pc];
    var m := ListOf(e, !truth) + l;
    assert forall j <- m :: j in ListOf(e, !truth) || j in l;
    assert forall j <- l :: j in m;
    assert forall j <- ListOf(e, !truth) :: j in m;
  }

  lemma InvertedBefore(s: Fs, e: Exp, truth: bool)
    requires Good(s, e) && e.k.VJmp? && e.k.pc >= 1
    ensures var t := Tested(s, e, truth).0;
            && t == s.(code := t.code) && |t.code| == |s.code| == e.k.pc + 1
            && forall q: nat :: q < e.k.pc - 1 ==> t.code[q] == s.code[q]
  {
    hide ListOk, Paired;
  }

  lemma TestedGood(s: Fs, e: Exp, truth: bool, shape: Shape)
    requires Good(s, e) && Base(s, e) >= s.nactvar && ShapeIs(s, e.k, shape)
    ensures var (t, l) := Tested(s, e, truth);
            && ListsGood(t, Left(e, truth, l)) && Since(s, e, t, Left(e, truth, l))
            && t.freereg == Base(s, e) && t.k == TestedConst(shape, truth, s.k)
            && (l == [] <==> Sure(shape, truth))
            && SameList(s.code, t.code, e.t) && SameList(s.code, t.code, e.f)
  {
    hide Fits, ListOk, Paired, CondJump;
    var (t, l) := Tested(s, e, truth);
    if SureKind(e.k, truth) {
      SinceSelf(s, e);
      SinceKind(s, e, s, e, VTrue);
      assert ListOf(e, !truth) + [] == ListOf(e, !truth);
      assert Left(e, truth, l) == e.(k := VTrue);
    } else if e.k == (if truth then VFalse else VTrue) {
      JumpGood(s, e);
      JumpLeft(s, e, truth);
    } else if e.k.VJmp? {
      InvertGood(s, e, truth);
    } else {
      JumpOnCondGood(s, e, truth, shape);
    }
  }

  lemma JumpOnCondGood(s: Fs, e: Exp, truth: bool, shape: Shape)
    requires Good(s, e) && Base(s, e) >= s.nactvar && ShapeIs(s, e.k, shape) && !e.k.VJmp?
    ensures var (t, l) := JumpOnCond(s, e, !truth);
            && ListsGood(t, Left(e, truth, l)) && Since(s, e, t, Left(e, truth, l))
            && t.freereg == Base(s, e) && t.k == LoadedConst(shape, s.k) && l != []
            && SameList(s.code, t.code, e.t) && SameList(s.code, t.code, e.f)
  {
    hide Fits, ListOk, Paired, CondJump, Since, SameList;
    var (t, l) := JumpOnCond(s, e, !truth);
    if e.k.VReloc? && s.code[e.k.pc].Not? {
      PoppedGood(s, e);
      CondJumpGood(Popped(s), e.(k := VTrue), Test(s.code[e.k.pc].b, truth), truth);
      SinceTrans(s, e, Popped(s), e.(k := VTrue), t, Left(e, truth, l));
      SameListTrans(s.code, Popped(s).code, t.code, e.t);
      SameListTrans(s.code, Popped(s).code, t.code, e.f);
    } else {
      AnyRegGood(s, e, shape);
      var (s1, f) := DischargeToAnyReg(s, e);
      var u := FreeExp(s1, f);
      CondJumpGood(u, f, TestSet(NO_REG, f.k.r, !truth), truth);
      SinceTrans(s, e, u, f, t, Left(e, truth, l));
      SameListTrans(s.code, u.code, t.code, e.t);
      SameListTrans(s.code, u.code, t.code, e.f);
    }
  }

  lemma SinceKind(s: Fs, e: Exp, t: Fs, f: Exp, k: Kind)
    requires Since(s, e, t, f) && Inert(f.k) && Inert(k)
    ensures Since(s, e, t, f.(k := k))
  {}

  lemma JumpLeft(s: Fs, e: Exp, truth: bool)
    requires ListsGood(s, e) && Inert(e.k)
    ensures var (t, l) := Jump(s);
            ListsGood(t, Left(e, truth, l)) && Since(s, e, t, Left(e, truth, l))
  {
    hide Fits, Paired;
    JumpGood(s, e);
    var (t, l) := Jump(s);
    JoinLists(t.code, ListOf(e, !truth), l);
    hide ListOk, SameList;
    assert forall j <- ListOf(e, !truth) + l :: j in ListOf(e, !truth) || j in l;
    JumpLeftSince(s, e, truth, t, l);
    hide Since;
  }

  lemma JumpLeftSince(s: Fs, e: Exp, truth: bool, t: Fs, l: seq<nat>)
    requires Since(s, e, t, e.(f := e.f + l)) && Inert(e.k)
    ensures Since(s, e, t, Left(e, truth, l))
  {
    hide Fits;
    var a, b := e.f + l, ListOf(e, !truth) + l;
    assert forall j <- a :: j in e.f || j in l;
    assert forall j <- b :: j in ListOf(e, !truth) || j in l;
    assert forall j <- l :: j in a && j in b;
    assert forall j <- e.f :: j in a;
    assert forall j <- ListOf(e, !truth) :: j in b;
    assert Owned(t, Left(e, truth, l)) == Owned(t, e.(f := a));
  }

  lemma GoIfGood(s: Fs, e: Exp, truth: bool, shape: Shape)
    requires Good(s, e) && Base(s, e) >= s.nactvar && ShapeIs(s, e.k, shape)
    ensures var (t, f) := GoIf(s, e, truth); var g := f.(k := VTrue);
            && ListsGood(t, g) && Since(s, e, t, g) && ListOf(f, truth) == []
            && t.freereg == Base(s, e) && t.k == TestedConst(shape, truth, s.k)
            && (ListOf(f, !truth) != [] <==> ListOf(e, !truth) != [] || !Sure(shape, truth))
  {
    hide Fits, ListOk, Paired, Tested;
    GoIfForm(s, e, truth);
    TestedGood(s, e, truth, shape);
    var (t, l) := Tested(s, e, truth);
    ToHereGood(s, e, t, Left(e, truth, l), truth);
  }

  lemma ToHereGood(s: Fs, e: Exp, t: Fs, h: Exp, truth: bool)
    requires ListsGood(t, h) && Since(s, e, t, h) && Inert(h.k)
    ensures var u, g := PatchToHere(t, ListOf(h, truth)), SetList(h, truth, []);
            ListsGood(u, g) && Since(s, e, u, g)
  {
    hide Fits, Paired;
    JoinLists(t.code, t.jpc, ListOf(h, truth));
    var u, g := PatchToHere(t, ListOf(h, truth)), SetList(h, truth, []);
    assert ListOk(u.code, []);
    hide ListOk;
    assert forall j <- u.jpc :: j in t.jpc || j in ListOf(h, truth);
  }

  /** The test does what `Go` says. */
  lemma GoIfRuns(x: Ctx, s: Fs, e: Exp, truth: bool, shape: Shape, o: Outcome)
    requires Good(s, e) && Base(s, e) >= s.nactvar && ShapeIs(s, e.k, shape) && Exits(x, s, e, o)
    requires forall r <- x.live :: r < Base(s, e)
    requires var (t, _) := GoIf(s, e, truth); Fits(x.code, t.code) && t.k <= x.env.k
    ensures var (t, f) := GoIf(s, e, truth); Goes(x, t, f, truth, Go(shape, o.x, truth), o.log)
  {
    hide Fits, ListOk, Paired, Tested, Since, At, LeavesBy, Ends;
    GoIfForm(s, e, truth);
    TestedGood(s, e, truth, shape);
    var (t, l) := Tested(s, e, truth);
    var h := Left(e, truth, l);
    match o.x
    case By(b, c) => ByGoes(x, s, e, t, l, truth, b, c, o.log);
    case On(v, held) =>
      TestedRuns(x, s, e, truth, shape, v, held, o.log);
      if Go(shape, o.x, truth).Through? {
        AtMore(x, t, ListOf(e, truth), Go(shape, o.x, truth).held, o.log);
      }
  }

  /** Exits by jumps: those for `truth` come here, the others leave. */
  lemma ByGoes(x: Ctx, s: Fs, e: Exp, t: Fs, l: seq<nat>, truth: bool, b: bool, c: Option<Value>, log: seq<Event>)
    requires LeavesBy(x, s.code, ListOf(e, b), c, log) && SameList(s.code, t.code, ListOf(e, b))
    ensures b == truth ==> At(x, PatchToHere(t, ListOf(e, truth)), c, log)
    ensures b != truth ==> LeavesBy(x, t.code, ListOf(e, !truth) + l, c, log)
  {
    if b == truth {
      LeavesLater(x, s.code, t.code, ListOf(e, b), t.jpc + ListOf(e, b), c, log, VTrue, Result(Bool(true), log));
    } else {
      LeavesLater(x, s.code, t.code, ListOf(e, b), ListOf(e, b) + l, c, log, VTrue, Result(Bool(true), log));
    }
  }

  /** More jumps come to the same place. */
  lemma AtMore(x: Ctx, t: Fs, l: seq<nat>, held: Option<Value>, log: seq<Event>)
    requires At(x, t, held, log)
    ensures At(x, PatchToHere(t, l), held, log)
  {
    if LeavesBy(x, t.code, t.jpc, held, log) {
      var j: nat, regs :| j in t.jpc && Takes(x, t.code, j, regs, held, log);
      assert j in t.jpc + l && Yields(x.env, t.code, VTrue, regs, log) == Result(Bool(true), log);
    }
  }

  /** The last operand decides. */
  lemma TestedRuns(x: Ctx, s: Fs, e: Exp, truth: bool, shape: Shape, v: Value, held: Option<Value>, log: seq<Event>)
    requires Good(s, e) && Base(s, e) >= s.nactvar && ShapeIs(s, e.k, shape) && Ends(x, s, e, v, held, log)
    requires forall r <- x.live :: r < Base(s, e)
    requires var (t, _) := Tested(s, e, truth); Fits(x.code, t.code) && t.k <= x.env.k
    ensures var (t, l) := Tested(s, e, truth); Goes(x, t, Left(e, truth, l), truth, Go(shape, On(v, held), truth), log)
  {
    hide Fits, ListOk, Paired, CondJump;
    if SureKind(e.k, truth) {
      EndsAt(x, s, e, v, held, log);
    } else if e.k == (if truth then VFalse else VTrue) {
      NeverRuns(x, s, e, truth, v, held, log);
    } else if e.k.VJmp? {
      CompareRuns(x, s, e, truth, v, held, log);
    } else if e.k.VReloc? && s.code[e.k.pc].Not? {
      NotTested(x, s, e, truth, v, held, log);
    } else {
      RegTested(x, s, e, truth, shape, v, held, log);
    }
  }

  lemma RegTested(x: Ctx, s: Fs, e: Exp, truth: bool, shape: Shape, v: Value, held: Option<Value>, log: seq<Event>)
    requires Good(s, e) && Base(s, e) >= s.nactvar && ShapeIs(s, e.k, shape) && Ends(x, s, e, v, held, log)
    requires forall r <- x.live :: r < Base(s, e)
    requires !e.k.VJmp? && !(e.k.VReloc? && s.code[e.k.pc].Not?)
    requires var (t, _) := JumpOnCond(s, e, !truth); Fits(x.code, t.code) && t.k <= x.env.k
    ensures var (t, l) := JumpOnCond(s, e, !truth);
            Goes(x, t, Left(e, truth, l), truth, if IsFalse(v) != truth then Through(None) else Away(Some(v)), log)
  {
    hide Fits, ListOk, Paired, CondJump, Ends, Goes, Since;
    AnyRegGood(s, e, shape);
    var (s1, f) := DischargeToAnyReg(s, e);
    var u := FreeExp(s1, f);
    var i := TestSet(NO_REG, f.k.r, !truth);
    CondJumpGood(u, f, i, truth);
    var (t, l) := CondJump(u, i);
    FitsBack(x.code, u, f, t, Left(f, truth, l));
    AnyRegRuns(x, s, e, v, held, log);
    var h :| Ends(x, u, Exp(f.k, [], []), v, h, log);
    TestSetRuns(x, u, f, truth, v, h, log);
    assert Left(f, truth, l) == Left(e, truth, l);
  }

  lemma FitsBack(final: seq<Instr>, s: Fs, e: Exp, t: Fs, f: Exp)
    requires Since(s, e, t, f) && Inert(e.k) && Fits(final, t.code)
    ensures Fits(final, s.code)
  {
    assert s.code[..|s.code|] == s.code;
    FitsTrans(final, t.code, s.code);
  }

  lemma EndsAt(x: Ctx, s: Fs, e: Exp, v: Value, held: Option<Value>, log: seq<Event>)
    requires Ends(x, s, e, v, held, log) && Inert(e.k)
    ensures At(x, s, held, log)
  {
    if held.None? && exists log0 :: Falls(x, s.code, Front(s, e), log0, e.k, Result(v, log)) {
      var log0 :| Falls(x, s.code, Front(s, e), log0, e.k, Result(v, log));
      var regs :| Gets(x, |s.code|, regs, log0) && Yields(x.env, s.code, e.k, regs, log0) == Result(v, log);
      assert log0 == log;
      assert Yields(x.env, s.code, VTrue, regs, log) == Result(Bool(true), log);
      assert Falls(x, s.code, |s.code|, log, VTrue, Result(Bool(true), log));
    } else {
      var j: nat, regs :| j in s.jpc && Takes(x, s.code, j, regs, held, log) && Yields(x.env, s.code, e.k, regs, log) == Result(v, log);
      assert Yields(x.env, s.code, VTrue, regs, log) == Result(Bool(true), log);
    }
  }

  /** An unconditional jump: pending jumps go along, with what they can deliver. */
  lemma NeverRuns(x: Ctx, s: Fs, e: Exp, truth: bool, v: Value, held: Option<Value>, log: seq<Event>)
    requires ListsGood(s, e) && Inert(e.k) && Ends(x, s, e, v, held, log)
    requires Fits(x.code, Jump(s).0.code)
    ensures var (t, l) := Jump(s); LeavesBy(x, t.code, ListOf(e, !truth) + l, held, log)
  {
    hide Fits, Paired, ListOk;
    var (t, l) := Jump(s);
    JumpGood(s, e);
    EndsAt(x, s, e, v, held, log);
    var m := ListOf(e, !truth) + l;
    if LeavesBy(x, s.code, s.jpc, held, log) {
      LeavesLater(x, s.code, t.code, s.jpc, m, held, log, VTrue, Result(Bool(true), log));
    } else {
      var n := |s.code|;
      var regs :| Gets(x, n, regs, log) && Yields(x.env, s.code, VTrue, regs, log) == Result(Bool(true), log);
      assert n in l by { assert l[0] == n; }
      InList(t.code, l, n);
      TakesJump(x, t.code, n, regs, log);
      assert n in m && Yields(x.env, t.code, VTrue, regs, log) == Result(Bool(true), log);
    }
  }

  lemma CompareRuns(x: Ctx, s: Fs, e: Exp, truth: bool, v: Value, held: Option<Value>, log: seq<Event>)
    requires Good(s, e) && e.k.VJmp? && Ends(x, s, e, v, held, log) && Fits(x.code, Tested(s, e, truth).0.code)
    ensures var (t, l) := Tested(s, e, truth);
            Goes(x, t, Left(e, truth, l), truth, if IsFalse(v) != truth then Through(None) else Away(None), log)
  {
    hide ListOk, Paired, At, LeavesBy, Fits, Good, Tested, Goes;
    var (t, l) := Tested(s, e, truth);
    ComparedCode(s, e, truth);
    var n := e.k.pc - 1;
    var log0 :| Falls(x, s.code, Front(s, e), log0, e.k, Result(v, log));
    var regs :| Gets(x, n, regs, log0) && Yields(x.env, s.code, e.k, regs, log0) == Result(v, log);
    hide Gets, Ends, Falls;
    Settled(x.code, t.code, n);
    PlainTestRuns(x, t, n, regs, log0, log, l, IsFalse(v) == truth);
    ComparedGoes(x, t, e, truth, l, IsFalse(v) == truth, log);
  }

  /** The comparison that is tested and its jump. */
  lemma ComparedCode(s: Fs, e: Exp, truth: bool)
    requires Good(s, e) && e.k.VJmp?
    ensures e.k.pc >= 1
    ensures var (t, l) := Tested(s, e, truth); var n := e.k.pc - 1;
            && l == [n + 1] && |t.code| == |s.code| == n + 2 && Front(s, e) == n && t.code[n + 1] == Jmp(NO_JUMP)
            && s.code[n].Cmp? && t.code[n] == (if truth then s.code[n].(cond := !s.code[n].cond) else s.code[n])
  {
    hide ListOk, Paired;
  }

  lemma ComparedGoes(x: Ctx, t: Fs, e: Exp, truth: bool, l: seq<nat>, away: bool, log: seq<Event>)
    requires if away then LeavesBy(x, t.code, l, None, log) else At(x, t, None, log)
    ensures Goes(x, t, Left(e, truth, l), truth, if away then Away(None) else Through(None), log)
  {
    hide At;
    if away {
      var j: nat, regs :| j in l && Takes(x, t.code, j, regs, None, log) && Yields(x.env, t.code, VTrue, regs, log) == Result(Bool(true), log);
      assert j in ListOf(Left(e, truth, l), !truth);
    }
  }

  lemma NotTested(x: Ctx, s: Fs, e: Exp, truth: bool, v: Value, held: Option<Value>, log: seq<Event>)
    requires Good(s, e) && e.k.VReloc? && s.code[e.k.pc].Not? && Ends(x, s, e, v, held, log)
    requires Fits(x.code, JumpOnCond(s, e, !truth).0.code)
    ensures var (t, l) := JumpOnCond(s, e, !truth);
            Goes(x, t, Left(e, truth, l), truth, if IsFalse(v) != truth then Through(None) else Away(None), log)
  {
    hide ListOk, Paired, At, LeavesBy, Fits, Since, SameList, Agree;
    var n := e.k.pc;
    var i := Test(s.code[n].b, truth);
    PoppedGood(s, e);
    CondJumpGood(Popped(s), e.(k := VTrue), i, truth);
    var (t, l) := JumpOnCond(s, e, !truth);
    assert (t, l) == CondJump(Popped(s), i);
    var log0 :| Falls(x, s.code, Front(s, e), log0, e.k, Result(v, log));
    var regs :| Gets(x, n, regs, log0) && Yields(x.env, s.code, e.k, regs, log0) == Result(v, log);
    Settled(x.code, t.code, n);
    hide Gets, CondJump;
    PlainTestRuns(x, t, n, regs, log, log, ListOf(Left(e, truth, l), !truth), IsFalse(v) == truth);
  }
}
