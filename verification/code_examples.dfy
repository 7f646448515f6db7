/** Two programs whose generated code goes wrong, step by step. */
module CodeExamples {
  import opened CodeVm
  import opened CodeTree
  import opened CodeGen
  import opened CodeExact
  import opened CodeTheorems

  const HALF := ELogic(false, ENum(1), EFalse)
  const HALF_TRUE := ELogic(false, ELogic(true, HALF, ETrue), EFalse)

  lemma EmptyEnds(l: seq<nat>)
    ensures [] + l == l && l + [] == l
  {}

  lemma OneTest(s: Fs, i: Instr)
    requires s.jpc == []
    ensures CondJump(s, i) == (s.(code := s.code + [i, Jmp(NO_JUMP)]), [|s.code| + 1])
  {
    assert s.code + [i] + [Jmp(NO_JUMP)] == s.code + [i, Jmp(NO_JUMP)];
    assert [|s.code| + 1] + [] == [|s.code| + 1];
  }

  /** The value 1 is tested; the jump can deliver it. */
  lemma HalfTest()
    ensures GoIf(Fs([], [], [], 0, 0), Exp(VKNum(1), [], []), false) ==
            (Fs([LoadK(0, 0), TestSet(NO_REG, 0, true), Jmp(NO_JUMP)], [], [Num(1)], 0, 0), Exp(VKNum(1), [2], []))
  {
    var s, e := Fs([], [], [], 0, 0), Exp(VKNum(1), [], []);
    var s1 := Fs([LoadK(0, 0)], [], [Num(1)], 1, 0);
    assert AddConst([], Num(1)) == [Num(1)] && [] + [LoadK(0, 0)] == [LoadK(0, 0)];
    assert DischargeToAnyReg(s, e) == (s1, Exp(VNonReloc(0), [], []));
    var s2 := Fs([LoadK(0, 0), TestSet(NO_REG, 0, true), Jmp(NO_JUMP)], [], [Num(1)], 0, 0);
    OneTest(s1.(freereg := 0), TestSet(NO_REG, 0, true));
    hide Emit, PatchList;
    assert s2.code == s1.code + [TestSet(NO_REG, 0, true), Jmp(NO_JUMP)];
    EmptyEnds([2]);
    EmptyEnds([]);
    assert JumpOnCond(s, e, true) == (s2, [2]);
    hide JumpOnCond;
    assert GoIf(s, e, false) == (s2, Exp(VKNum(1), [2], []));
  }

  lemma HalfCode()
    ensures Gen(Fs([], [], [], 0, 0), HALF) ==
            (Fs([LoadK(0, 0), TestSet(NO_REG, 0, true), Jmp(NO_JUMP)], [], [Num(1)], 0, 0), Exp(VFalse, [2], []))
  {
    HalfTest();
    EmptyEnds([2]);
    hide GoIf;
  }

  /** The jumps made for the literals take it along. */
  lemma HalfTrueCode()
    ensures Gen(Fs([], [], [], 0, 0), HALF_TRUE) ==
            (Fs([LoadK(0, 0), TestSet(NO_REG, 0, true), Jmp(NO_JUMP), Jmp(NO_JUMP), Jmp(NO_JUMP)], [3], [Num(1)], 0, 0), Exp(VFalse, [4, 2], []))
  {
    HalfCode();
    hide JumpOnCond, Emit;
    var s, e := Gen(Fs([], [], [], 0, 0), HALF).0, Exp(VFalse, [2], []);
    var s1 := Fs([LoadK(0, 0), TestSet(NO_REG, 0, true), Jmp(NO_JUMP), Jmp(NO_JUMP)], [2], [Num(1)], 0, 0);
    EmptyEnds([3]);
    EmptyEnds([2]);
    assert s1.code == s.code + [Jmp(NO_JUMP)];
    assert GoIf(s, e, true) == (s1, Exp(VFalse, [], [3]));
    assert Gen(Fs([], [], [], 0, 0), ELogic(true, HALF, ETrue)) == (s1, Exp(VTrue, [], [3]));
    var s2 := Fs([LoadK(0, 0), TestSet(NO_REG, 0, true), Jmp(NO_JUMP), Jmp(NO_JUMP), Jmp(NO_JUMP)], [3], [Num(1)], 0, 0);
    assert s2.code == s1.code + [Jmp(NO_JUMP)];
    assert [4] + [2] == [4, 2];
    EmptyEnds([4, 2]);
    assert GoIf(s1, Exp(VTrue, [], [3]), false) == (s2, Exp(VTrue, [4, 2], []));
  }

  lemma HalfTrueValue()
    ensures ValueCode(Fs([], [], [], 0, 0), HALF_TRUE).code ==
            [LoadK(0, 0), Test(0, true), Jmp(6), Jmp(1), Jmp(3), LoadBool(0, false, false), Jmp(NO_JUMP), LoadBool(0, false, true), LoadBool(0, true, false)]
  {
    HalfTrueCode();
    hide Gen;
    var s, e := Gen(Fs([], [], [], 0, 0), HALF_TRUE).0, Exp(VFalse, [4, 2], []);
    var c1 := [LoadK(0, 0), TestSet(NO_REG, 0, true), Jmp(NO_JUMP), Jmp(1), Jmp(NO_JUMP)];
    assert !Valued(s.code, 3) && [3][1..] == [];
    assert FixJump(s.code, 3, 5) == c1;
    assert PatchList(s.code, [3], 5, None, 5) == PatchList(c1, [], 5, None, 5) == c1;
    var s1 := Fs(c1 + [LoadBool(0, false, false)], [], [Num(1)], 1, 0);
    assert DischargeTo(ReserveReg(s), e, 0) == (s1, Exp(VNonReloc(0), [4, 2], []));
    var s3 := CloseHalf(s1);
    assert ValueCode(Fs([], [], [], 0, 0), HALF_TRUE) == CloseJumps(s1, Exp(VNonReloc(0), [4, 2], []), 0);
  }

  lemma CloseHalf(s: Fs) returns (r: seq<Instr>)
    requires s == Fs([LoadK(0, 0), TestSet(NO_REG, 0, true), Jmp(NO_JUMP), Jmp(1), Jmp(NO_JUMP), LoadBool(0, false, false)], [], [Num(1)], 1, 0)
    ensures r == [LoadK(0, 0), Test(0, true), Jmp(6), Jmp(1), Jmp(3), LoadBool(0, false, false), Jmp(NO_JUMP), LoadBool(0, false, true), LoadBool(0, true, false)]
    ensures CloseJumps(s, Exp(VNonReloc(0), [4, 2], []), 0).code == r
  {
    r := [LoadK(0, 0), Test(0, true), Jmp(6), Jmp(1), Jmp(3), LoadBool(0, false, false), Jmp(NO_JUMP), LoadBool(0, false, true), LoadBool(0, true, false)];
    assert 4 in [4, 2] && !Valued(s.code, 4);
    assert NeedValue(s.code, [4, 2]);
    var c := s.code + [Jmp(NO_JUMP), LoadBool(0, false, true), LoadBool(0, true, false)];
    var s1 := Jump(s).0;
    assert Emit(Emit(s1, LoadBool(0, false, true)), LoadBool(0, true, false)).code == c;
    assert PatchList(c, [], 9, Some(0), 7) == c;
    var c1 := c[4 := Jmp(3)];
    assert !Valued(c, 4) && Valued(c1, 2);
    assert FixJump(PatchTest(c, 4, Some(0)), 4, 8) == c1;
    assert FixJump(PatchTest(c1, 2, Some(0)), 2, 9) == r;
    assert PatchList(r, [], 9, Some(0), 8) == r;
    assert [2][1..] == [] && [4, 2][1..] == [2];
    assert PatchList(c1, [2], 9, Some(0), 8) == r;
    assert PatchList(c, [4, 2], 9, Some(0), 8) == r;
  }

  /** `local b = ((1 or false) and true) or false` leaves 1 in `b`. */
  lemma StaleValue(env: Env, log: seq<Event>)
    requires env.k != [] && env.k[0] == Num(1)
    ensures var v := ValueCode(Fs([], [], [], 0, 0), HALF_TRUE);
            && Reaches(env, v.code, Conf(0, map[], log), Conf(|v.code|, map[0 := Num(1)], log))
            && Eval(env, HALF_TRUE, map[], log).v == Bool(true)
  {
    HalfTrueValue();
    hide ValueCode;
    var v := ValueCode(Fs([], [], [], 0, 0), HALF_TRUE);
    var c := Conf(0, map[], log);
    ReachesSelf(env, v.code, c);
    ReachesStep(env, v.code, c, c);
    ReachesStep(env, v.code, c, Conf(1, map[0 := Num(1)], log));
    assert Eval(env, HALF, map[], log).v == Num(1);
    assert Eval(env, ELogic(true, HALF, ETrue), map[], log).v == Bool(true);
  }

  const HALF_IF := Fs([TestSet(NO_REG, 0, false), Jmp(NO_JUMP)], [1], [], 1, 1)
  const HALF_AND := ELogic(true, EFalse, ENum(1))

  /** `local a; if a then end`, up to the next statement. */
  lemma HalfIf()
    ensures var (t, f) := TestCode(Fs([], [], [], 1, 1), ELocal(0), true); PatchToHere(t, f.f) == HALF_IF
  {
    var s, e := Fs([], [], [], 1, 1), Exp(VNonReloc(0), [], []);
    OneTest(s, TestSet(NO_REG, 0, false));
    EmptyEnds([1]);
    assert HALF_IF.code == s.code + [TestSet(NO_REG, 0, false), Jmp(NO_JUMP)];
    assert JumpOnCond(s, e, false) == (HALF_IF.(jpc := []), [1]);
  }

  lemma HalfAndCode()
    ensures Gen(HALF_IF, HALF_AND) ==
            (Fs([TestSet(NO_REG, 0, false), Jmp(NO_JUMP), Jmp(NO_JUMP)], [], [], 1, 1), Exp(VKNum(1), [], [2, 1]))
  {
    var s := Fs([TestSet(NO_REG, 0, false), Jmp(NO_JUMP), Jmp(NO_JUMP)], [], [], 1, 1);
    assert s.code == HALF_IF.code + [Jmp(NO_JUMP)];
    assert [2] + [1] == [2, 1];
    EmptyEnds([2, 1]);
    EmptyEnds([]);
    assert GoIf(HALF_IF, Exp(VFalse, [], []), true) == (s, Exp(VFalse, [], [2, 1]));
    var e := Exp(VKNum(1), [], [2, 1]);
    assert Gen(HALF_IF, HALF_AND) == (s, e);
  }

  lemma HalfAndValue()
    ensures ValueCode(HALF_IF, HALF_AND).code ==
            [TestSet(1, 0, false), Jmp(5), Jmp(2), LoadK(1, 0), Jmp(NO_JUMP), LoadBool(1, false, true), LoadBool(1, true, false)]
  {
    HalfAndCode();
    hide Gen;
    var s := Fs([TestSet(NO_REG, 0, false), Jmp(NO_JUMP), Jmp(NO_JUMP)], [], [], 1, 1);
    var e := Exp(VKNum(1), [], [2, 1]);
    var s1 := Fs(s.code + [LoadK(1, 0)], [], [Num(1)], 2, 1);
    assert AddConst([], Num(1)) == [Num(1)];
    assert DischargeTo(ReserveReg(s), e, 1) == (s1, Exp(VNonReloc(1), [], [2, 1]));
    var r := CloseAnd(s1);
    assert ValueCode(HALF_IF, HALF_AND) == CloseJumps(s1, Exp(VNonReloc(1), [], [2, 1]), 1);
  }

  lemma CloseAnd(s: Fs) returns (r: seq<Instr>)
    requires s == Fs([TestSet(NO_REG, 0, false), Jmp(NO_JUMP), Jmp(NO_JUMP), LoadK(1, 0)], [], [Num(1)], 2, 1)
    ensures r == [TestSet(1, 0, false), Jmp(5), Jmp(2), LoadK(1, 0), Jmp(NO_JUMP), LoadBool(1, false, true), LoadBool(1, true, false)]
    ensures CloseJumps(s, Exp(VNonReloc(1), [], [2, 1]), 1).code == r
  {
    r := [TestSet(1, 0, false), Jmp(5), Jmp(2), LoadK(1, 0), Jmp(NO_JUMP), LoadBool(1, false, true), LoadBool(1, true, false)];
    assert 2 in [2, 1] && !Valued(s.code, 2);
    assert NeedValue(s.code, [2, 1]);
    var c := s.code + [Jmp(NO_JUMP), LoadBool(1, false, true), LoadBool(1, true, false)];
    var s1 := Jump(s).0;
    assert Emit(Emit(s1, LoadBool(1, false, true)), LoadBool(1, true, false)).code == c;
    var c1 := c[2 := Jmp(2)];
    assert !Valued(c, 2) && Valued(c1, 1);
    assert FixJump(PatchTest(c, 2, Some(1)), 2, 5) == c1;
    assert FixJump(PatchTest(c1, 1, Some(1)), 1, 7) == r;
    assert PatchList(r, [], 7, Some(1), 5) == r && PatchList(r, [], 7, Some(1), 6) == r;
    assert [1][1..] == [] && [2, 1][1..] == [1];
    assert PatchList(c1, [1], 7, Some(1), 5) == r;
    assert PatchList(c, [2, 1], 7, Some(1), 5) == r;
  }

  /** `local a; if a then end; local b = false and 1` leaves nil in `b`: the jump
      of the first condition is still pending. */
  lemma StaleCondition(env: Env, log: seq<Event>)
    ensures var (t, f) := TestCode(Fs([], [], [], 1, 1), ELocal(0), true);
            var s := PatchToHere(t, f.f); var v := ValueCode(s, HALF_AND);
            && Reaches(env, v.code, Conf(0, map[], log), Conf(|v.code|, map[1 := Nil], log))
            && Eval(env, HALF_AND, map[], log).v == Bool(false)
            && (forall up :: !Leaks(HALF_AND, false, s.k, up)) && Risky(s, HALF_AND)
  {
    HalfIf();
    HalfAndValue();
    HalfRisk();
    hide ValueCode, TestCode, PatchToHere, Leaks, Risky;
    var v := ValueCode(HALF_IF, HALF_AND);
    var c := Conf(0, map[], log);
    ReachesSelf(env, v.code, c);
    ReachesStep(env, v.code, c, c);
  }

  lemma HalfRisk()
    ensures forall up :: !Leaks(HALF_AND, false, [], up)
    ensures Risky(HALF_IF, HALF_AND)
  {
    forall up ensures !Leaks(HALF_AND, false, [], up) && Leaks(HALF_AND, true, [], up) {
      assert Doors(EFalse, false, [], up) == {AtEnd(false)} && Doors(EFalse, true, [], up) == {AtEnd(true)};
      assert Ways(SFalse, None, AtEnd(false), true) == {Off(Empty)} && Ways(SFalse, None, AtEnd(true), true) == {Off(Stale)};
      assert AllWays(SFalse, None, {AtEnd(false)}, true) == {Off(Empty)};
      assert Off(Stale) in AllWays(SFalse, None, {AtEnd(true)}, true);
      var ws := AllWays(SFalse, None, {AtEnd(false)}, true);
      assert Doors(HALF_AND, false, [], up) == {ByJump(false, Empty)};
      assert ByJump(false, Stale) in Doors(HALF_AND, true, [], up);
      assert !LeaksInside(EFalse, false, [], up) && !LeaksInside(HALF_AND, false, [], up);
    }
    assert RiskyFrom(HALF_IF, HALF_AND, ByPending(1), {});
  }
}
