/** The expression code generator (`lcode.c`), with jump lists as sequences of
    positions.  A jump that is still on a list holds `NO_JUMP`. */
module CodeGen {
  import opened CodeVm
  import opened CodeTree

  const NO_JUMP := -1

  datatype Kind =
    | VNil | VTrue | VFalse
    | VK(i: nat)
    | VKNum(n: int)
    | VLocal(r: nat)
    | VGlobal(g: nat)
    | VCall(pc: nat)
    | VReloc(pc: nat)
    | VNonReloc(r: nat)
    | VJmp(pc: nat)

  /** `expdesc`: where the value is, and the jumps that leave the expression. */
  datatype Exp = Exp(k: Kind, t: seq<nat>, f: seq<nat>)

  /** `FuncState`: the code so far, the jumps pending to the next instruction,
      the constants, the registers in use, of which the first `nactvar` hold
      locals. */
  datatype Fs = Fs(code: seq<Instr>, jpc: seq<nat>, k: seq<Value>, freereg: nat, nactvar: nat)

  // ---- Jump lists ---------------------------------------------------------

  /** `getjumpcontrol`: the test before a jump, if there is one. */
  predicate Valued(code: seq<Instr>, j: nat) {
    1 <= j <= |code| && code[j - 1].TestSet?
  }

  /** `patchtestreg`. */
  function PatchTest(code: seq<Instr>, j: nat, reg: Option<nat>): (r: seq<Instr>)
    ensures |r| == |code|
  {
    if Valued(code, j) then
      var i := code[j - 1];
      code[j - 1 := if reg.Some? && reg.value != i.b then TestSet(reg.value, i.b, i.c) else Test(i.b, i.c)]
    else code
  }

  /** `fixjump`. */
  function FixJump(code: seq<Instr>, j: nat, dest: int): (r: seq<Instr>)
    ensures |r| == |code|
  {
    if j < |code| then code[j := Jmp(dest - (j + 1))] else code
  }

  /** `patchlistaux`: jumps that can deliver a value go to `vtarget` and deliver
      it in `reg`; the others go to `dtarget`. */
  function PatchList(code: seq<Instr>, l: seq<nat>, vtarget: int, reg: Option<nat>, dtarget: int): (r: seq<Instr>)
    ensures |r| == |code|
    decreases |l|
  {
    if l == [] then code else
      PatchList(FixJump(PatchTest(code, l[0], reg), l[0], if Valued(code, l[0]) then vtarget else dtarget),
                l[1..], vtarget, reg, dtarget)
  }

  /** `removevalues`. */
  function RemoveValues(code: seq<Instr>, l: seq<nat>): (r: seq<Instr>)
    ensures |r| == |code|
    decreases |l|
  {
    if l == [] then code else RemoveValues(PatchTest(code, l[0], None), l[1..])
  }

  /** `need_value`. */
  predicate NeedValue(code: seq<Instr>, l: seq<nat>) {
    exists j <- l :: !Valued(code, j)
  }

  // ---- Emitting code ------------------------------------------------------

  /** `luaK_code`: the jumps pending to here now know where here is. */
  function Emit(s: Fs, i: Instr): Fs {
    var pc := |s.code|;
    s.(code := PatchList(s.code, s.jpc, pc, None, pc) + [i], jpc := [])
  }

  /** `luaK_jump`: pending jumps are not fixed but put on hold with the new one. */
  function Jump(s: Fs): (Fs, seq<nat>) {
    (s.(code := s.code + [Jmp(NO_JUMP)], jpc := []), [|s.code|] + s.jpc)
  }

  function CondJump(s: Fs, i: Instr): (Fs, seq<nat>) {
    Jump(Emit(s, i))
  }

  /** `luaK_patchtohere`. */
  function PatchToHere(s: Fs, l: seq<nat>): Fs {
    s.(jpc := s.jpc + l)
  }

  /** `addk`. */
  function AddK(s: Fs, v: Value): (Fs, nat) {
    (s.(k := AddConst(s.k, v)), IndexOf(s.k, v))
  }

  // ---- Registers ----------------------------------------------------------

  function ReserveReg(s: Fs): Fs {
    s.(freereg := s.freereg + 1)
  }

  function FreeReg(s: Fs, r: nat): Fs {
    if r >= s.nactvar && s.freereg > 0 then s.(freereg := s.freereg - 1) else s
  }

  function FreeExp(s: Fs, e: Exp): Fs {
    if e.k.VNonReloc? then FreeReg(s, e.k.r) else s
  }

  // ---- Discharging --------------------------------------------------------

  /** `luaK_dischargevars`. */
  function DischargeVars(s: Fs, e: Exp): (Fs, Exp) {
    match e.k
    case VLocal(r) => (s, e.(k := VNonReloc(r)))
    case VGlobal(g) => (Emit(s, GetGlobal(0, g)), e.(k := VReloc(|s.code|)))
    case VCall(pc) =>
      (s, e.(k := VNonReloc(if pc < |s.code| && s.code[pc].Call? then s.code[pc].a else 0)))
    case _ => (s, e)
  }

  /** The register of the instruction that computes a relocatable value. */
  function SetA(i: Instr, reg: nat): Instr {
    match i
    case GetGlobal(_, g) => GetGlobal(reg, g)
    case Not(_, b) => Not(reg, b)
    case _ => i
  }

  /** `discharge2reg`, after `luaK_dischargevars`. */
  function DischargeTo(s: Fs, e: Exp, reg: nat): (Fs, Exp) {
    var done := e.(k := VNonReloc(reg));
    match e.k
    case VNil => (Emit(s, LoadNil(reg, reg)), done)
    case VTrue => (Emit(s, LoadBool(reg, true, false)), done)
    case VFalse => (Emit(s, LoadBool(reg, false, false)), done)
    case VK(i) => (Emit(s, LoadK(reg, i)), done)
    case VKNum(n) => var (s1, i) := AddK(s, Num(n)); (Emit(s1, LoadK(reg, i)), done)
    case VReloc(pc) =>
      (if pc < |s.code| then s.(code := s.code[pc := SetA(s.code[pc], reg)]) else s, done)
    case VNonReloc(r) => (if r != reg then Emit(s, Move(reg, r)) else s, done)
    case _ => (s, e)
  }

  function DischargeToReg(s: Fs, e: Exp, reg: nat): (Fs, Exp) {
    var (s1, e1) := DischargeVars(s, e);
    DischargeTo(s1, e1, reg)
  }

  function DischargeToAnyReg(s: Fs, e: Exp): (Fs, Exp) {
    if e.k.VNonReloc? then (s, e) else
      DischargeToReg(ReserveReg(s), e, s.freereg)
  }

  /** The part of `exp2reg` after the value of the last operand has been put in
      `reg`: the jumps that leave the expression are made to deliver theirs. */
  function CloseJumps(s: Fs, e: Exp, reg: nat): Fs {
    if e.t == [] && e.f == [] then s
    else if NeedValue(s.code, e.t) || NeedValue(s.code, e.f) then
      var (s1, fj) := if e.k.VJmp? then (s, []) else Jump(s);
      var pf := |s1.code|;
      var s2 := Emit(Emit(s1, LoadBool(reg, false, true)), LoadBool(reg, true, false));
      var s3 := PatchToHere(s2, fj);
      PatchExits(s3, e, reg, pf, pf + 1)
    else PatchExits(s, e, reg, NO_JUMP, NO_JUMP)
  }

  function PatchExits(s: Fs, e: Exp, reg: nat, pf: int, pt: int): Fs {
    var final := |s.code|;
    s.(code := PatchList(PatchList(s.code, e.f, final, Some(reg), pf), e.t, final, Some(reg), pt))
  }

  /** `exp2reg`. */
  function ExpToReg(s: Fs, e: Exp, reg: nat): (Fs, Exp) {
    var (s1, e1) := DischargeToReg(s, e, reg);
    var e2 := if e1.k.VJmp? then e1.(t := e1.t + [e1.k.pc]) else e1;
    (CloseJumps(s1, e2, reg), Exp(VNonReloc(reg), [], []))
  }

  function ExpToNextReg(s: Fs, e: Exp): (Fs, Exp) {
    var (s1, e1) := DischargeVars(s, e);
    var s2 := FreeExp(s1, e1);
    ExpToReg(ReserveReg(s2), e1, s2.freereg)
  }

  function ExpToAnyReg(s: Fs, e: Exp): (Fs, Exp) {
    var (s1, e1) := DischargeVars(s, e);
    if e1.k.VNonReloc? && e1.t == [] && e1.f == [] then (s1, e1)
    else if e1.k.VNonReloc? && e1.k.r >= s1.nactvar then ExpToReg(s1, e1, e1.k.r)
    else ExpToNextReg(s1, e1)
  }

  /** `luaK_exp2val`. */
  function ExpToVal(s: Fs, e: Exp): (Fs, Exp) {
    if e.t != [] || e.f != [] then ExpToAnyReg(s, e) else DischargeVars(s, e)
  }

  function LiteralValue(k: Kind): Value {
    match k
    case VTrue => Bool(true)
    case VFalse => Bool(false)
    case VKNum(n) => Num(n)
    case _ => Nil
  }

  /** `luaK_exp2RK`: a constant if it fits the operand, a register otherwise. */
  function ExpToRk(s: Fs, e: Exp): (Fs, Exp) {
    var (s1, e1) := ExpToVal(s, e);
    if (e1.k.VNil? || e1.k.VTrue? || e1.k.VFalse? || e1.k.VKNum?) && |s1.k| <= MAXINDEXRK then
      var (s2, i) := AddK(s1, LiteralValue(e1.k));
      (s2, e1.(k := VK(i)))
    else if e1.k.VK? && e1.k.i <= MAXINDEXRK then (s1, e1)
    else ExpToAnyReg(s1, e1)
  }

  /** The operand left by `ExpToRk`. */
  function RkOf(e: Exp): Rk {
    match e.k
    case VK(i) => K(i)
    case VNonReloc(r) => R(r)
    case _ => R(0)
  }

  // ---- Tests --------------------------------------------------------------

  /** `invertjump`. */
  function InvertJump(s: Fs, pc: nat): Fs {
    if 1 <= pc <= |s.code| && s.code[pc - 1].Cmp? then
      s.(code := s.code[pc - 1 := s.code[pc - 1].(cond := !s.code[pc - 1].cond)])
    else s
  }

  const NO_REG := 255

  /** `jumponcond`: jumps when the value is (`cond`) or is not true. */
  function JumpOnCond(s: Fs, e: Exp, cond: bool): (Fs, seq<nat>) {
    if e.k.VReloc? && e.k.pc < |s.code| && s.code[e.k.pc].Not? then
      CondJump(s.(code := s.code[..|s.code| - 1]), Test(s.code[e.k.pc].b, !cond))
    else
      var (s1, e1) := DischargeToAnyReg(s, e);
      CondJump(FreeExp(s1, e1), TestSet(NO_REG, if e1.k.VNonReloc? then e1.k.r else 0, cond))
  }

  predicate SureKind(k: Kind, truth: bool) {
    if truth then k.VK? || k.VKNum? || k.VTrue? else k.VNil? || k.VFalse?
  }

  /** The jumps that leave when the expression has the given truth value. */
  function ListOf(e: Exp, truth: bool): seq<nat> {
    if truth then e.t else e.f
  }

  function SetList(e: Exp, truth: bool, l: seq<nat>): Exp {
    if truth then e.(t := l) else e.(f := l)
  }

  /** `luaK_goiftrue` (`truth`) and `luaK_goiffalse`: control goes on when the
      expression has this truth value and leaves by a jump when it has not. */
  function GoIf(s: Fs, e: Exp, truth: bool): (Fs, Exp) {
    var (s1, e1) := DischargeVars(s, e);
    var (s2, l) :=
      if SureKind(e1.k, truth) then (s1, [])
      else if e1.k == (if truth then VFalse else VTrue) then Jump(s1)
      else if e1.k.VJmp? then (if truth then InvertJump(s1, e1.k.pc) else s1, [e1.k.pc])
      else JumpOnCond(s1, e1, !truth);
    (PatchToHere(s2, ListOf(e1, truth)),
     SetList(SetList(e1, truth, []), !truth, ListOf(e1, !truth) + l))
  }

  /** `codenot`. */
  function CodeNot(s: Fs, e: Exp): (Fs, Exp) {
    var (s1, e1) := DischargeVars(s, e);
    var (s2, k) :=
      match e1.k
      case VNil => (s1, VTrue)
      case VFalse => (s1, VTrue)
      case VK(_) => (s1, VFalse)
      case VKNum(_) => (s1, VFalse)
      case VTrue => (s1, VFalse)
      case VJmp(pc) => (InvertJump(s1, pc), e1.k)
      case _ =>
        var (s3, e3) := DischargeToAnyReg(s1, e1);
        var s4 := FreeExp(s3, e3);
        (Emit(s4, Not(0, if e3.k.VNonReloc? then e3.k.r else 0)), VReloc(|s4.code|));
    (s2.(code := RemoveValues(RemoveValues(s2.code, e1.t), e1.f)), Exp(k, e1.f, e1.t))
  }

  // ---- Operators ----------------------------------------------------------

  function CompareInstr(op: CompareOp, x: Rk, y: Rk): Instr {
    match op
    case Eq => Cmp(OpEq, true, x, y)
    case Ne => Cmp(OpEq, false, x, y)
    case Lt => Cmp(OpLt, true, x, y)
    case Le => Cmp(OpLe, true, x, y)
    case Gt => Cmp(OpLt, true, y, x)
    case Ge => Cmp(OpLe, true, y, x)
  }

  /** `codecomp`. */
  function CodeComp(s: Fs, op: CompareOp, e1: Exp, e2: Exp): (Fs, Exp) {
    var (s1, a) := ExpToRk(s, e1);
    var (s2, b) := ExpToRk(s1, e2);
    var s3 := FreeExp(FreeExp(s2, b), a);
    var (s4, _) := CondJump(s3, CompareInstr(op, RkOf(a), RkOf(b)));
    (s4, Exp(VJmp(|s4.code| - 1), [], []))
  }

  /** `subexpr`, `luaK_infix` and `luaK_posfix` over a whole tree. */
  function Gen(s: Fs, e: Expr): (Fs, Exp)
    decreases e
  {
    match e
    case ENil => (s, Exp(VNil, [], []))
    case ETrue => (s, Exp(VTrue, [], []))
    case EFalse => (s, Exp(VFalse, [], []))
    case ENum(n) => (s, Exp(VKNum(n), [], []))
    case EStr(x) => var (s1, i) := AddK(s, Str(x)); (s1, Exp(VK(i), [], []))
    case ELocal(r) => (s, Exp(VLocal(r), [], []))
    case EGlobal(g) => (s, Exp(VGlobal(g), [], []))
    case ECall(g) =>
      var (s1, e1) := ExpToNextReg(s, Exp(VGlobal(g), [], []));
      (Emit(s1, Call(s.freereg)).(freereg := s.freereg + 1), Exp(VCall(|s1.code|), [], []))
    case ENot(a) => var (s1, e1) := Gen(s, a); CodeNot(s1, e1)
    case ELogic(op, a, b) =>
      var (s1, e1) := Gen(s, a);
      var (s2, e2) := GoIf(s1, e1, op);
      var (s3, e3) := Gen(s2, b);
      var (s4, e4) := DischargeVars(s3, e3);
      (s4, SetList(e4, !op, ListOf(e4, !op) + ListOf(e2, !op)))
    case ECompare(op, a, b) =>
      var (s1, e1) := Gen(s, a);
      var (s2, e2) := ExpToRk(s1, e1);
      var (s3, e3) := Gen(s2, b);
      CodeComp(s3, op, e2, e3)
  }
}
