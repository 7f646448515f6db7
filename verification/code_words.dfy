/** The instructions of the generator as the words that the checker, the dumper and
    the machine see: the two models of the machine agree. */
module CodeWords {
  import opened CodeVm
  import W = ChunkWords
  import Control = ChunkControl
  import Operands = ChunkOperands

  // ---- Encoding -----------------------------------------------------------

  function Abc(op: nat, a: nat, b: nat, c: nat): nat {
    op + 64 * a + 16384 * c + 8388608 * b
  }

  function Flag(b: bool): nat { if b then 1 else 0 }

  /** An operand as RKASK makes it. */
  function RkField(x: Rk): nat {
    match x case R(r) => r case K(i) => 256 + i
  }

  function CmpNumber(op: CmpOp): nat {
    match op case OpEq => 23 case OpLt => 24 case OpLe => 25
  }

  predicate RkFits(x: Rk) {
    match x case R(r) => r < 256 case K(i) => i < 256
  }

  /** The fields are wide enough. */
  predicate InstrFits(i: Instr) {
    match i
    case Move(a, b) => a < 256 && b < 512
    case LoadK(a, k) => a < 256 && k < 262144
    case LoadBool(a, _, _) => a < 256
    case LoadNil(a, b) => a < 256 && b < 512
    case GetGlobal(a, g) => a < 256 && g < 262144
    case Not(a, b) => a < 256 && b < 512
    case Call(a) => a < 256
    case Cmp(_, _, x, y) => RkFits(x) && RkFits(y)
    case Test(a, _) => a < 256
    case TestSet(a, b, _) => a < 256 && b < 512
    case Jmp(sbx) => -131071 <= sbx <= 131072
  }

  /** CREATE_ABC and CREATE_ABx as the generator calls them; a call has no arguments
      and one result. */
  function Encode(i: Instr): (w: W.Word)
    requires InstrFits(i)
  {
    match i
    case Move(a, b) => Abc(0, a, b, 0)
    case LoadK(a, k) => 1 + 64 * a + 16384 * k
    case LoadBool(a, v, skip) => Abc(2, a, Flag(v), Flag(skip))
    case LoadNil(a, b) => Abc(3, a, b, 0)
    case GetGlobal(a, g) => 5 + 64 * a + 16384 * g
    case Not(a, b) => Abc(19, a, b, 0)
    case Call(a) => Abc(28, a, 1, 2)
    case Cmp(op, cond, x, y) => Abc(CmpNumber(op), Flag(cond), RkField(x), RkField(y))
    case Test(a, c) => Abc(26, a, 0, Flag(c))
    case TestSet(a, b, c) => Abc(27, a, b, Flag(c))
    case Jmp(sbx) => 22 + 16384 * (sbx + 131071)
  }

  predicate AllFit(code: seq<Instr>) {
    forall i: nat :: i < |code| ==> InstrFits(code[i])
  }

  function Words(code: seq<Instr>): (r: seq<W.Word>)
    requires AllFit(code)
    ensures |r| == |code|
  {
    seq(|code|, i requires 0 <= i < |code| => Encode(code[i]))
  }

  /** The fields of the words. */
  datatype Fields = Fields(op: nat, a: nat, b: nat, c: nat)

  function FieldsOf(i: Instr): Fields
    requires InstrFits(i)
  {
    match i
    case Move(a, b) => Fields(0, a, b, 0)
    case LoadK(a, k) => Fields(1, a, k / 512, k % 512)
    case LoadBool(a, v, skip) => Fields(2, a, Flag(v), Flag(skip))
    case LoadNil(a, b) => Fields(3, a, b, 0)
    case GetGlobal(a, g) => Fields(5, a, g / 512, g % 512)
    case Not(a, b) => Fields(19, a, b, 0)
    case Call(a) => Fields(28, a, 1, 2)
    case Cmp(op, cond, x, y) => Fields(CmpNumber(op), Flag(cond), RkField(x), RkField(y))
    case Test(a, c) => Fields(26, a, 0, Flag(c))
    case TestSet(a, b, c) => Fields(27, a, b, Flag(c))
    case Jmp(sbx) => Fields(22, 0, (sbx + 131071) / 512, (sbx + 131071) % 512)
  }

  lemma EncodedFields(i: Instr)
    requires InstrFits(i)
    ensures var w, f := Encode(i), FieldsOf(i);
            W.OpOf(w) == f.op && W.ArgA(w) == f.a && W.ArgB(w) == f.b && W.ArgC(w) == f.c && W.ArgBx(w) == 512 * f.b + f.c
  {
    hide Encode, FieldsOf, InstrFits, W.OpOf, W.ArgA, W.ArgB, W.ArgC, W.ArgBx;
    EncodedSum(i);
    var f := FieldsOf(i);
    SumFields(Encode(i), f.op, f.a, f.b, f.c);
  }

  lemma SumFields(w: W.Word, op: nat, a: nat, b: nat, c: nat)
    requires op < 64 && a < 256 && b < 512 && c < 512 && w == op + 64 * a + 16384 * c + 8388608 * b
    ensures W.OpOf(w) == op && W.ArgA(w) == a && W.ArgB(w) == b && W.ArgC(w) == c && W.ArgBx(w) == 512 * b + c
  {
    hide W.OpOf, W.ArgA, W.ArgB, W.ArgC, W.ArgBx;
    Operands.Composed(op, a, b, c);
  }

  lemma EncodedSum(i: Instr)
    requires InstrFits(i)
    ensures var f := FieldsOf(i); f.op < 64 && f.a < 256 && f.b < 512 && f.c < 512 && Encode(i) == f.op + 64 * f.a + 16384 * f.c + 8388608 * f.b
  {
    match i
    case LoadK(_, k) => assert k == 512 * (k / 512) + k % 512;
    case GetGlobal(_, g) => assert g == 512 * (g / 512) + g % 512;
    case Jmp(sbx) => var x := sbx + 131071; assert x == 512 * (x / 512) + x % 512;
    case _ =>
  }

  /** The opcode of an instruction. */
  function Name(i: Instr): W.Op {
    match i
    case Move(_, _) => W.Move
    case LoadK(_, _) => W.LoadK
    case LoadBool(_, _, _) => W.LoadBool
    case LoadNil(_, _) => W.LoadNil
    case GetGlobal(_, _) => W.GetGlobal
    case Not(_, _) => W.Not
    case Call(_) => W.Call
    case Cmp(op, _, _, _) => if op.OpEq? then W.Eq else if op.OpLt? then W.Lt else W.Le
    case Test(_, _) => W.Test
    case TestSet(_, _, _) => W.TestSet
    case Jmp(_) => W.Jmp
  }

  lemma NumberOf(i: Instr)
    requires InstrFits(i)
    ensures W.Decode(FieldsOf(i).op) == Name(i)
  {}

  // ---- Where control goes -------------------------------------------------

  /** Every test has its jump behind it. */
  predicate TestsPaired(code: seq<Instr>) {
    forall i: nat :: i < |code| && IsTest(code[i]) ==> i + 1 < |code| && code[i + 1].Jmp?
  }

  /** Some world, some values and some history make the machine go from `pc` to `q`. */
  ghost predicate CanStep(code: seq<Instr>, pc: int, q: int) {
    exists env, regs, log :: StepsTo(env, code, Conf(pc, regs, log), q)
  }

  predicate StepsTo(env: Env, code: seq<Instr>, c: Conf, q: int) {
    Step(env, code, c).Some? && Step(env, code, c).value.pc == q
  }

  lemma DecodedOp(pt: W.Proto, code: seq<Instr>, pc: nat)
    requires AllFit(code) && pt.code == Words(code) && pc < |code|
    ensures W.Opcode(pt.code[pc]) == Name(code[pc])
    ensures code[pc].LoadBool? ==> W.ArgC(pt.code[pc]) == Flag(code[pc].skip)
    ensures code[pc].Jmp? ==> W.ArgSbx(pt.code[pc]) == code[pc].sbx
  {
    EncodedFields(code[pc]);
    NumberOf(code[pc]);
    hide W.Decode, W.OpOf, W.ArgA, W.ArgB, W.ArgC, Encode;
  }

  lemma StepGoes(pt: W.Proto, env: Env, code: seq<Instr>, c: Conf)
    requires AllFit(code) && pt.code == Words(code) && TestsPaired(code) && Step(env, code, c).Some?
    ensures Control.Goes(pt, c.pc, Step(env, code, c).value.pc)
  {
    hide W.OpOf, W.ArgC, W.ArgBx, W.ArgSbx, W.Opcode, Words, InstrFits;
    DecodedOp(pt, code, c.pc);
    if IsTest(code[c.pc]) {
      DecodedOp(pt, code, c.pc + 1);
      TestGoes(pt, env, code, c);
    } else {
      PlainGoes(pt, env, code, c);
    }
  }

  lemma TestGoes(pt: W.Proto, env: Env, code: seq<Instr>, c: Conf)
    requires |pt.code| == |code| && Step(env, code, c).Some? && IsTest(code[c.pc]) && c.pc + 1 < |code| && code[c.pc + 1].Jmp?
    requires W.Opcode(pt.code[c.pc]) == Name(code[c.pc]) && W.ArgSbx(pt.code[c.pc + 1]) == code[c.pc + 1].sbx
    ensures Control.Goes(pt, c.pc, Step(env, code, c).value.pc)
  {
    hide W.OpOf, W.ArgC, W.ArgBx, W.ArgSbx, W.Opcode;
  }

  lemma PlainGoes(pt: W.Proto, env: Env, code: seq<Instr>, c: Conf)
    requires |pt.code| == |code| && Step(env, code, c).Some? && !IsTest(code[c.pc])
    requires W.Opcode(pt.code[c.pc]) == Name(code[c.pc])
    requires code[c.pc].LoadBool? ==> W.ArgC(pt.code[c.pc]) == Flag(code[c.pc].skip)
    requires code[c.pc].Jmp? ==> W.ArgSbx(pt.code[c.pc]) == code[c.pc].sbx
    ensures Control.Goes(pt, c.pc, Step(env, code, c).value.pc)
  {
    hide W.OpOf, W.ArgC, W.ArgBx, W.ArgSbx, W.Opcode;
  }

  lemma GoesSteps(pt: W.Proto, code: seq<Instr>, pc: nat, q: int)
    requires AllFit(code) && pt.code == Words(code) && TestsPaired(code) && pc < |code| && Control.Goes(pt, pc, q)
    ensures CanStep(code, pc, q)
  {
    hide W.OpOf, W.ArgC, W.ArgBx, W.ArgSbx, W.Opcode, Words, InstrFits;
    DecodedOp(pt, code, pc);
    if IsTest(code[pc]) {
      DecodedOp(pt, code, pc + 1);
      TestSteps(pt, code, pc, q);
    } else {
      PlainSteps(pt, code, pc, q);
    }
  }

  lemma TestSteps(pt: W.Proto, code: seq<Instr>, pc: nat, q: int)
    requires |pt.code| == |code| && Control.Goes(pt, pc, q) && IsTest(code[pc]) && pc + 1 < |code| && code[pc + 1].Jmp?
    requires W.Opcode(pt.code[pc]) == Name(code[pc]) && W.ArgSbx(pt.code[pc + 1]) == code[pc + 1].sbx
    ensures CanStep(code, pc, q)
  {
    hide W.OpOf, W.ArgC, W.ArgBx, W.ArgSbx, W.Opcode;
    var jumps := q == Target(code, pc + 1);
    match code[pc]
    case Cmp(_, cond, _, _) => Witness(Env([], _ => Bool(cond == jumps)), code, pc, map[], q);
    case Test(a, k) => Witness(Env([], _ => Nil), code, pc, map[a := Bool(k == jumps)], q);
    case TestSet(_, b, k) => Witness(Env([], _ => Nil), code, pc, map[b := Bool(k == jumps)], q);
  }

  lemma PlainSteps(pt: W.Proto, code: seq<Instr>, pc: nat, q: int)
    requires |pt.code| == |code| && Control.Goes(pt, pc, q) && pc < |code| && !IsTest(code[pc])
    requires W.Opcode(pt.code[pc]) == Name(code[pc])
    requires code[pc].LoadBool? ==> W.ArgC(pt.code[pc]) == Flag(code[pc].skip)
    requires code[pc].Jmp? ==> W.ArgSbx(pt.code[pc]) == code[pc].sbx
    ensures CanStep(code, pc, q)
  {
    hide W.OpOf, W.ArgC, W.ArgBx, W.ArgSbx, W.Opcode;
    Witness(Env([], _ => Nil), code, pc, map[], q);
  }

  lemma Witness(env: Env, code: seq<Instr>, pc: int, regs: Regs, q: int)
    requires StepsTo(env, code, Conf(pc, regs, []), q)
    ensures CanStep(code, pc, q)
  {}

  /** Control goes where the machine of the checker says, and anywhere it says. */
  lemma GoesExactly(pt: W.Proto, code: seq<Instr>, pc: int, q: int)
    requires AllFit(code) && pt.code == Words(code) && TestsPaired(code)
    ensures Control.Goes(pt, pc, q) <==> CanStep(code, pc, q)
  {
    hide Control.Goes, Step, StepsTo, CanStep;
    if CanStep(code, pc, q) {
      StepFrom(code, pc, q);
      var env, regs, log :| StepsTo(env, code, Conf(pc, regs, log), q);
      StepThen(pt, env, code, Conf(pc, regs, log), q);
    }
    if Control.Goes(pt, pc, q) {
      GoesInside(pt, pc, q);
      GoesSteps(pt, code, pc, q);
    }
  }

  lemma StepFrom(code: seq<Instr>, pc: int, q: int)
    requires CanStep(code, pc, q)
    ensures exists env, regs, log :: StepsTo(env, code, Conf(pc, regs, log), q)
  {}

  lemma StepThen(pt: W.Proto, env: Env, code: seq<Instr>, c: Conf, q: int)
    requires AllFit(code) && pt.code == Words(code) && TestsPaired(code) && StepsTo(env, code, c, q)
    ensures Control.Goes(pt, c.pc, q)
  {
    StepGoes(pt, env, code, c);
  }

  lemma GoesInside(pt: W.Proto, pc: int, q: int)
    requires Control.Goes(pt, pc, q)
    ensures 0 <= pc < |pt.code|
  {}

  // ---- What an instruction touches ----------------------------------------

  /** Two configurations that differ only in registers the instruction does not name. */
  ghost predicate SameNamed(i: Instr, c: Conf, d: Conf)
    requires InstrFits(i)
  {
    var f := FieldsOf(i);
    && d.pc == c.pc && d.log == c.log
    && forall r: nat :: Operands.Register(f.op, f.a, f.b, f.c, r) ==> Get(d.regs, r) == Get(c.regs, r)
  }

  /** An instruction changes only registers that it names, and what a call leaves above
      its result; and what it does depends on no other registers, and no other
      constants than it names. */
  lemma StepNames(env: Env, env': Env, code: seq<Instr>, c: Conf, c': Conf)
    requires Step(env, code, c).Some? && InstrFits(code[c.pc]) && SameNamed(code[c.pc], c, c') && env'.world == env.world
    requires var f := FieldsOf(code[c.pc]);
             forall k: nat :: Operands.Constant(f.op, f.b, f.c, k) ==> Const(env', k) == Const(env, k)
    ensures Step(env', code, c').Some? && Alike(code[c.pc], c, Step(env, code, c).value, Step(env', code, c').value)
  {
    hide W.OpOf;
    var i := code[c.pc];
    var f := FieldsOf(i);
    assert Operands.Register(f.op, f.a, f.b, f.c, f.a);
    if i.Cmp? {
      OperandSame(env, env', c, c', i, i.x);
      OperandSame(env, env', c, c', i, i.y);
      hide Operands.Register, Operands.Constant, FieldsOf, GetRk;
    } else if i.LoadK? || i.LoadBool? || i.LoadNil? || i.GetGlobal? {
      LoadNames(env, env', code, c, c');
    } else if i.Move? || i.Not? || i.TestSet? {
      CopyNames(env, env', code, c, c');
    } else {
      OtherNames(env, env', code, c, c');
    }
  }

  /** The two outcomes agree, and the first changes no register it must not. */
  ghost predicate Alike(i: Instr, c: Conf, d: Conf, d': Conf)
    requires InstrFits(i)
  {
    var f := FieldsOf(i);
    && d'.pc == d.pc && d'.log == d.log
    && (forall r: nat :: Operands.Register(f.op, f.a, f.b, f.c, r) ==> Get(d'.regs, r) == Get(d.regs, r))
    && (forall r: nat :: Get(d.regs, r) != Get(c.regs, r) ==> Operands.Register(f.op, f.a, f.b, f.c, r) || (i.Call? && r > f.a))
  }

  lemma LoadNames(env: Env, env': Env, code: seq<Instr>, c: Conf, c': Conf)
    requires Step(env, code, c).Some? && InstrFits(code[c.pc]) && SameNamed(code[c.pc], c, c') && env'.world == env.world && (code[c.pc].LoadK? || code[c.pc].LoadBool? || code[c.pc].LoadNil? || code[c.pc].GetGlobal?)
    requires var f := FieldsOf(code[c.pc]);
             forall k: nat :: Operands.Constant(f.op, f.b, f.c, k) ==> Const(env', k) == Const(env, k)
    ensures Step(env', code, c').Some? && Alike(code[c.pc], c, Step(env, code, c).value, Step(env', code, c').value)
  {
    var i := code[c.pc];
    var f := FieldsOf(i);
    assert Operands.Register(f.op, f.a, f.b, f.c, f.a);
    if i.LoadK? { assert Operands.Constant(f.op, f.b, f.c, i.k); }
  }

  lemma CopyNames(env: Env, env': Env, code: seq<Instr>, c: Conf, c': Conf)
    requires Step(env, code, c).Some? && InstrFits(code[c.pc]) && SameNamed(code[c.pc], c, c') && env'.world == env.world && (code[c.pc].Move? || code[c.pc].Not? || code[c.pc].TestSet?)
    requires var f := FieldsOf(code[c.pc]);
             forall k: nat :: Operands.Constant(f.op, f.b, f.c, k) ==> Const(env', k) == Const(env, k)
    ensures Step(env', code, c').Some? && Alike(code[c.pc], c, Step(env, code, c).value, Step(env', code, c').value)
  {
    var i := code[c.pc];
    var f := FieldsOf(i);
    assert Operands.Register(f.op, f.a, f.b, f.c, f.a);
    var b := match i case Move(_, b) => b case Not(_, b) => b case TestSet(_, b, _) => b;
    assert Operands.Register(f.op, f.a, f.b, f.c, b);
  }

  lemma OtherNames(env: Env, env': Env, code: seq<Instr>, c: Conf, c': Conf)
    requires Step(env, code, c).Some? && InstrFits(code[c.pc]) && SameNamed(code[c.pc], c, c') && env'.world == env.world && (code[c.pc].Call? || code[c.pc].Test? || code[c.pc].Jmp?)
    requires var f := FieldsOf(code[c.pc]);
             forall k: nat :: Operands.Constant(f.op, f.b, f.c, k) ==> Const(env', k) == Const(env, k)
    ensures Step(env', code, c').Some? && Alike(code[c.pc], c, Step(env, code, c).value, Step(env', code, c').value)
  {
    var i := code[c.pc];
    var f := FieldsOf(i);
    assert Operands.Register(f.op, f.a, f.b, f.c, f.a);
  }

  lemma OperandSame(env: Env, env': Env, c: Conf, c': Conf, i: Instr, x: Rk)
    requires InstrFits(i) && i.Cmp? && (x == i.x || x == i.y) && SameNamed(i, c, c')
    requires var f := FieldsOf(i); forall k: nat :: Operands.Constant(f.op, f.b, f.c, k) ==> Const(env', k) == Const(env, k)
    ensures GetRk(env, c.regs, x) == GetRk(env', c'.regs, x)
  {
    var f := FieldsOf(i);
    match x
    case R(r) => assert Operands.Register(f.op, f.a, f.b, f.c, r);
    case K(k) => assert Operands.Constant(f.op, f.b, f.c, k);
  }
}
