/** The bytecode checker (`luaG_checkcode`): `symbexec` over a whole function, for
    no register. */
module ChunkChecker {
  import opened ChunkWords

  const MAXSTACK := 250

  predicate HasArg(v: Byte) { v % 2 == 1 }
  predicate IsVararg(v: Byte) { (v / 2) % 2 == 1 }
  predicate NeedsArg(v: Byte) { (v / 4) % 2 == 1 }

  predicate PreCheck(pt: Proto) {
    && pt.maxstacksize <= MAXSTACK
    && pt.numparams + (if HasArg(pt.isVararg) then 1 else 0) <= pt.maxstacksize
    && (NeedsArg(pt.isVararg) ==> HasArg(pt.isVararg))
    && |pt.upvalues| <= pt.nups
    && (|pt.lineinfo| == |pt.code| || |pt.lineinfo| == 0)
    && |pt.code| > 0 && Opcode(pt.code[|pt.code| - 1]).Return?
  }

  /** `luaG_checkopenop`. */
  predicate OpenOp(w: Word) {
    var op := Opcode(w);
    (op.Call? || op.TailCall? || op.Return? || op.SetList?) && ArgB(w) == 0
  }

  predicate ArgOk(pt: Proto, r: nat, mode: ArgMode) {
    match mode
    case Unused => r == 0
    case Used => true
    case Register => r < pt.maxstacksize
    case RegisterOrK => if r >= BITRK then r - BITRK < |pt.k| else r < pt.maxstacksize
  }

  /** What looks like a SETLIST whose count is in the next word. */
  predicate CountFollows(w: Word) {
    Opcode(w).SetList? && ArgC(w) == 0
  }

  /** How many such words there are in a row right before `dest`. */
  function LookAlikes(code: seq<Word>, dest: nat): (n: nat)
    requires dest <= |code|
    ensures n <= dest && forall j :: dest - n <= j < dest ==> CountFollows(code[j])
    ensures n < dest ==> !CountFollows(code[dest - n - 1])
  {
    if dest > 0 && CountFollows(code[dest - 1]) then 1 + LookAlikes(code, dest - 1) else 0
  }

  predicate JumpOk(pt: Proto, dest: int) {
    0 <= dest < |pt.code| && LookAlikes(pt.code, dest) % 2 == 0
  }

  /** The checks of one instruction. */
  predicate InstrOk(pt: Proto, pc: nat)
    requires PreCheck(pt) && pc < |pt.code|
  {
    var i := pt.code[pc];
    var op := Opcode(i);
    !op.Invalid? && ArgA(i) < pt.maxstacksize && OperandsOk(pt, pc) && TestOk(pt, pc) && OwnOk(pt, pc)
  }

  predicate OperandsOk(pt: Proto, pc: nat)
    requires pc < |pt.code|
  {
    var i := pt.code[pc];
    var op := Opcode(i);
    match FormatOf(op)
    case ABC => ArgOk(pt, ArgB(i), ModeB(op)) && ArgOk(pt, ArgC(i), ModeC(op))
    case ABx => ModeB(op).RegisterOrK? ==> ArgBx(i) < |pt.k|
    case AsBx => JumpOk(pt, pc + 1 + ArgSbx(i))
  }

  predicate TestOk(pt: Proto, pc: nat)
    requires pc < |pt.code|
  {
    IsTest(Opcode(pt.code[pc])) ==> pc + 2 < |pt.code| && Opcode(pt.code[pc + 1]).Jmp?
  }

  /** The checks particular to an opcode. */
  predicate OwnOk(pt: Proto, pc: nat)
    requires PreCheck(pt) && pc < |pt.code|
  {
    var i := pt.code[pc];
    var a, b, c := ArgA(i), ArgB(i), ArgC(i);
    match Opcode(i)
    case LoadBool => c == 1 ==> pc + 2 < |pt.code| && !CountFollows(pt.code[pc + 1])
    case GetUpval => b < pt.nups
    case SetUpval => b < pt.nups
    case GetGlobal => ArgBx(i) < |pt.k| && pt.k[ArgBx(i)].KStr?
    case SetGlobal => ArgBx(i) < |pt.k| && pt.k[ArgBx(i)].KStr?
    case Self => a + 1 < pt.maxstacksize
    case Concat => b < c
    case TForLoop => c >= 1 && a + 2 + c < pt.maxstacksize
    case ForLoop => a + 3 < pt.maxstacksize
    case ForPrep => a + 3 < pt.maxstacksize
    case Call => CallOk(pt, pc, a, b, c)
    case TailCall => CallOk(pt, pc, a, b, c)
    case Return => b > 1 ==> a + b - 2 < pt.maxstacksize
    case SetList => (b > 0 ==> a + b < pt.maxstacksize) && (c == 0 ==> pc + 1 < |pt.code| - 1)
    case Closure => ArgBx(i) < |pt.p| && CapturesOk(pt, pc, pt.p[ArgBx(i)].nups)
    case Vararg =>
      && IsVararg(pt.isVararg) && !NeedsArg(pt.isVararg)
      && (b == 0 ==> pc + 1 < |pt.code| && OpenOp(pt.code[pc + 1])) && a + b - 2 < pt.maxstacksize
    case _ => true
  }

  predicate CallOk(pt: Proto, pc: nat, a: nat, b: nat, c: nat)
    requires pc < |pt.code|
  {
    && (b != 0 ==> a + b - 1 < pt.maxstacksize)
    && (c == 0 ==> pc + 1 < |pt.code| && OpenOp(pt.code[pc + 1]))
    && (c > 1 ==> a + c - 2 < pt.maxstacksize)
  }

  /** The words after a CLOSURE say where its upvalues come from. */
  predicate CapturesOk(pt: Proto, pc: nat, nup: nat) {
    pc + nup < |pt.code| && forall q :: pc < q <= pc + nup ==> CaptureWord(pt, q)
  }

  predicate CaptureWord(pt: Proto, pc: nat) {
    pc < |pt.code| && (Opcode(pt.code[pc]).GetUpval? || Opcode(pt.code[pc]).Move?)
  }

  /** Where the next instruction starts. */
  function NextStart(code: seq<Word>, pc: nat): (r: nat)
    requires pc < |code|
    ensures r > pc
  {
    if CountFollows(code[pc]) then pc + 2 else pc + 1
  }

  /** The scan from `pc` on. */
  predicate ScanOk(pt: Proto, pc: nat)
    requires PreCheck(pt)
    decreases |pt.code| - pc
  {
    pc < |pt.code| ==> InstrOk(pt, pc) && ScanOk(pt, NextStart(pt.code, pc))
  }

  /** `luaG_checkcode` accepts the function. */
  predicate Accepted(pt: Proto) {
    PreCheck(pt) && ScanOk(pt, 0)
  }

  // ---- The checker --------------------------------------------------------

  /** The check of a jump.  The count of one SETLIST may look like another SETLIST,
      so it goes all the way back to the first of them. */
  method CheckJump(pt: Proto, dest: int) returns (ok: bool)
    ensures ok == JumpOk(pt, dest)
  {
    if !(0 <= dest < |pt.code|) { return false; }
    var j := 0;
    while j < dest
      invariant 0 <= j <= dest && LookAlikes(pt.code, dest) == j + LookAlikes(pt.code, dest - j)
    {
      if !CountFollows(pt.code[dest - 1 - j]) { break; }
      j := j + 1;
    }
    ok := j % 2 == 0;
  }

  method CheckCaptures(pt: Proto, pc: nat, nup: nat) returns (ok: bool)
    ensures ok == CapturesOk(pt, pc, nup)
  {
    if pc + nup >= |pt.code| { return false; }
    var j := 1;
    while j <= nup
      invariant 1 <= j <= nup + 1 && forall q :: pc < q < pc + j ==> CaptureWord(pt, q)
    {
      if !CaptureWord(pt, pc + j) { return false; }
      j := j + 1;
    }
    ok := true;
  }

  /** The cases of the last switch. */
  method CheckOwn(pt: Proto, pc: nat) returns (ok: bool)
    requires PreCheck(pt) && pc < |pt.code| && OperandsOk(pt, pc)
    ensures ok == OwnOk(pt, pc)
  {
    var i := pt.code[pc];
    var a, b, c := ArgA(i), ArgB(i), ArgC(i);
    var n := |pt.code|;
    ok := true;
    match Opcode(i)
    case LoadBool =>
      if c == 1 {
        if pc + 2 >= n { return false; }
        if CountFollows(pt.code[pc + 1]) { return false; }
      }
    case GetUpval => ok := b < pt.nups;
    case SetUpval => ok := b < pt.nups;
    case GetGlobal => ok := pt.k[ArgBx(i)].KStr?;
    case SetGlobal => ok := pt.k[ArgBx(i)].KStr?;
    case Self => ok := a + 1 < pt.maxstacksize;
    case Concat => ok := b < c;
    case TForLoop => ok := c >= 1 && a + 2 + c < pt.maxstacksize;
    case ForLoop => ok := a + 3 < pt.maxstacksize;
    case ForPrep => ok := a + 3 < pt.maxstacksize;
    case Call => ok := CheckCall(pt, pc, a, b, c);
    case TailCall => ok := CheckCall(pt, pc, a, b, c);
    case Return => if b > 1 { ok := a + b - 2 < pt.maxstacksize; }
    case SetList =>
      if b > 0 && a + b >= pt.maxstacksize { return false; }
      if c == 0 { ok := pc + 1 < n - 1; }
    case Closure =>
      if ArgBx(i) >= |pt.p| { return false; }
      ok := CheckCaptures(pt, pc, pt.p[ArgBx(i)].nups);
    case Vararg =>
      if !(IsVararg(pt.isVararg) && !NeedsArg(pt.isVararg)) { return false; }
      if b == 0 && !OpenOp(pt.code[pc + 1]) { return false; }
      ok := a + b - 2 < pt.maxstacksize;
    case _ =>
  }

  method CheckCall(pt: Proto, pc: nat, a: nat, b: nat, c: nat) returns (ok: bool)
    requires pc + 1 < |pt.code|
    ensures ok == CallOk(pt, pc, a, b, c)
  {
    if b != 0 && a + b - 1 >= pt.maxstacksize { return false; }
    if c == 0 {
      ok := OpenOp(pt.code[pc + 1]);
    } else {
      ok := c > 1 ==> a + c - 2 < pt.maxstacksize;
    }
  }

  /** One round of `symbexec`. */
  method CheckInstr(pt: Proto, pc: nat) returns (ok: bool)
    requires PreCheck(pt) && pc < |pt.code|
    ensures ok == InstrOk(pt, pc)
  {
    hide JumpOk, OwnOk, ArgOk, Decode, OpOf, ArgA, ArgB, ArgC, ArgBx, ArgSbx, PreCheck;
    var i := pt.code[pc];
    var op := Opcode(i);
    if op.Invalid? || ArgA(i) >= pt.maxstacksize { return false; }
    match FormatOf(op) {
      case ABC =>
        if !(ArgOk(pt, ArgB(i), ModeB(op)) && ArgOk(pt, ArgC(i), ModeC(op))) { return false; }
      case ABx =>
        if ModeB(op).RegisterOrK? && ArgBx(i) >= |pt.k| { return false; }
      case AsBx =>
        var jump := CheckJump(pt, pc + 1 + ArgSbx(i));
        if !jump { return false; }
    }
    if IsTest(op) && !(pc + 2 < |pt.code| && Opcode(pt.code[pc + 1]).Jmp?) { return false; }
    ok := CheckOwn(pt, pc);
  }

  /** `symbexec`.  No word outside the code is ever looked at, whatever the code. */
  method CheckCode(pt: Proto) returns (ok: bool)
    ensures ok == Accepted(pt)
  {
    hide InstrOk;
    ok := PreCheck(pt);
    if !ok { return; }
    var pc := 0;
    while pc < |pt.code|
      invariant 0 <= pc && ok && ScanOk(pt, 0) == ScanOk(pt, pc)
      decreases |pt.code| - pc
    {
      ok := CheckInstr(pt, pc);
      if !ok { return; }
      pc := NextStart(pt.code, pc);
    }
  }
}
