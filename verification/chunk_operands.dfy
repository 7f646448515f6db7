/** Which functions the checker accepts, said by what their instructions mean to the
    machine (`lopcodes.h`, `luaV_execute`), not by what the checker tests: the numbers
    of the opcodes, the registers, constants, upvalues and inner functions that an
    instruction names, and where control goes. */
module ChunkOperands {
  import opened ChunkWords
  import opened ChunkChecker
  import opened ChunkControl

  // ---- Words --------------------------------------------------------------

  /** CREATE_ABC and the GETARG macros: the fields of a word are what it was made of,
      and every word is made of its fields. */
  lemma WordFields(op: nat, a: nat, b: nat, c: nat, w: Word)
    requires op < 64 && a < 256 && b < 512 && c < 512
    ensures var v := op + 64 * a + 16384 * c + 8388608 * b;
            v < 0x1_0000_0000 && OpOf(v) == op && ArgA(v) == a && ArgB(v) == b && ArgC(v) == c && ArgBx(v) == 512 * b + c
    ensures w == OpOf(w) + 64 * ArgA(w) + 16384 * ArgC(w) + 8388608 * ArgB(w)
    ensures ArgSbx(w) == 512 * ArgB(w) + ArgC(w) - 131071
  {
    Composed(op, a, b, c);
    Decomposed(w);
  }

  lemma Composed(op: nat, a: nat, b: nat, c: nat)
    requires op < 64 && a < 256 && b < 512 && c < 512
    ensures var v := op + 64 * a + 16384 * c + 8388608 * b;
            v < 0x1_0000_0000 && OpOf(v) == op && ArgA(v) == a && ArgB(v) == b && ArgC(v) == c && ArgBx(v) == 512 * b + c
  {
    var v := op + 64 * a + 16384 * c + 8388608 * b;
    Quotient(v, 64, a + 256 * c + 131072 * b, op);
    Quotient(a + 256 * c + 131072 * b, 256, c + 512 * b, a);
    Quotient(v, 16384, c + 512 * b, op + 64 * a);
    Quotient(c + 512 * b, 512, b, c);
    Quotient(v, 8388608, b, op + 64 * a + 16384 * c);
    Quotient(b, 512, 0, b);
    Quotient(c + 512 * b, 262144, 0, c + 512 * b);
  }

  lemma Quotient(v: nat, n: nat, q: nat, r: nat)
    requires n > 0 && v == n * q + r && r < n
    ensures v / n == q && v % n == r
  {
    var d := v / n - q;
    assert n * d == r - v % n;
    assert 0 - n < n * d < n;
  }

  lemma Decomposed(w: Word)
    ensures w == OpOf(w) + 64 * ArgA(w) + 16384 * ArgC(w) + 8388608 * ArgB(w)
    ensures ArgBx(w) == 512 * ArgB(w) + ArgC(w)
  {
    var x := w / 64;
    var y := w / 16384;
    var z := w / 8388608;
    assert y == x / 256 && z == y / 512;
  }

  // ---- What an instruction names ------------------------------------------

  /** Registers read or written.  The field A is taken for one in every instruction,
      even where it is a flag or not used, and so is B in TEST.  The three slots in
      which TFORLOOP calls its iterator are not counted. */
  predicate Register(op: nat, a: nat, b: nat, c: nat, r: int) {
    || r == a
    || match op
       case 0 => r == b                                        // MOVE
       case 3 => r == b || a <= r <= b                         // LOADNIL
       case 6 => r == b || RegisterOf(c, r)                    // GETTABLE
       case 9 => RegisterOf(b, r) || RegisterOf(c, r)          // SETTABLE
       case 11 => r == a + 1 || r == b || RegisterOf(c, r)     // SELF
       case 12 => RegisterOf(b, r) || RegisterOf(c, r)         // ADD
       case 13 => RegisterOf(b, r) || RegisterOf(c, r)         // SUB
       case 14 => RegisterOf(b, r) || RegisterOf(c, r)         // MUL
       case 15 => RegisterOf(b, r) || RegisterOf(c, r)         // DIV
       case 16 => RegisterOf(b, r) || RegisterOf(c, r)         // MOD
       case 17 => RegisterOf(b, r) || RegisterOf(c, r)         // POW
       case 18 => r == b                                       // UNM
       case 19 => r == b                                       // NOT
       case 20 => r == b                                       // LEN
       case 21 => b <= r <= c                                  // CONCAT
       case 23 => RegisterOf(b, r) || RegisterOf(c, r)         // EQ
       case 24 => RegisterOf(b, r) || RegisterOf(c, r)         // LT
       case 25 => RegisterOf(b, r) || RegisterOf(c, r)         // LE
       case 26 => r == b                                       // TEST
       case 27 => r == b                                       // TESTSET
       case 28 => a <= r <= a + b - 1 || a <= r <= a + c - 2   // CALL
       case 29 => a <= r <= a + b - 1 || a <= r <= a + c - 2   // TAILCALL
       case 30 => a <= r <= a + b - 2                          // RETURN
       case 31 => a <= r <= a + 3                              // FORLOOP
       case 32 => a <= r <= a + 3                              // FORPREP
       case 33 => a <= r <= a + 2 + c                          // TFORLOOP
       case 34 => a <= r <= a + b                              // SETLIST
       case 37 => a <= r <= a + b - 2                          // VARARG
       case _ => false
  }

  /** Constants read. */
  predicate Constant(op: nat, b: nat, c: nat, k: int) {
    match op
    case 1 => k == 512 * b + c                                 // LOADK
    case 5 => k == 512 * b + c                                 // GETGLOBAL
    case 7 => k == 512 * b + c                                 // SETGLOBAL
    case 6 => ConstantOf(c, k)                                 // GETTABLE
    case 11 => ConstantOf(c, k)                                // SELF
    case 9 => ConstantOf(b, k) || ConstantOf(c, k)             // SETTABLE
    case 12 => ConstantOf(b, k) || ConstantOf(c, k)            // ADD
    case 13 => ConstantOf(b, k) || ConstantOf(c, k)            // SUB
    case 14 => ConstantOf(b, k) || ConstantOf(c, k)            // MUL
    case 15 => ConstantOf(b, k) || ConstantOf(c, k)            // DIV
    case 16 => ConstantOf(b, k) || ConstantOf(c, k)            // MOD
    case 17 => ConstantOf(b, k) || ConstantOf(c, k)            // POW
    case 23 => ConstantOf(b, k) || ConstantOf(c, k)            // EQ
    case 24 => ConstantOf(b, k) || ConstantOf(c, k)            // LT
    case 25 => ConstantOf(b, k) || ConstantOf(c, k)            // LE
    case _ => false
  }

  /** An operand below 256 is a register, from there on a constant. */
  predicate RegisterOf(x: nat, r: int) { x < 256 && r == x }

  predicate ConstantOf(x: nat, k: int) { x >= 256 && k == x - 256 }

  /** Fields that an instruction has no use for are zero. */
  predicate UnusedZero(op: nat, b: nat, c: nat) {
    && (op in {0, 3, 4, 8, 18, 19, 20, 30, 35, 37} ==> c == 0)
    && (op in {33, 35} ==> b == 0)
  }

  /** Everything named is there, and there are enough operands to concatenate and
      enough results to go on with. */
  ghost predicate Named(pt: Proto, op: nat, a: nat, b: nat, c: nat) {
    && op < 38
    && (forall r :: Register(op, a, b, c, r) ==> r < pt.maxstacksize)
    && (forall k :: Constant(op, b, c, k) ==> k < |pt.k|)
    && (op in {5, 7} ==> 512 * b + c < |pt.k| && pt.k[512 * b + c].KStr?)
    && (op in {4, 8} ==> b < pt.nups)
    && (op == 36 ==> 512 * b + c < |pt.p|)
    && UnusedZero(op, b, c)
    && (op == 21 ==> b < c) && (op == 33 ==> c >= 1)
  }

  // ---- Where control goes -------------------------------------------------

  /** An instruction that takes all values up to the top of the stack. */
  predicate TakesOpen(w: Word) {
    OpOf(w) in {28, 29, 30, 34} && ArgB(w) == 0
  }

  predicate IsCount(w: Word) {
    OpOf(w) == 34 && ArgC(w) == 0
  }

  /** What follows an instruction is what it takes to follow, and jumps go to the
      start of an instruction. */
  predicate Continues(pt: Proto, pc: nat, op: nat, b: nat, c: nat) {
    var code := pt.code;
    && (op in {22, 31, 32} ==> IsStart(code, pc + 1 + (512 * b + c) - 131071))
    && (op in {23, 24, 25, 26, 27, 33} ==> pc + 2 < |code| && OpOf(code[pc + 1]) == 22)
    && (op == 2 && c == 1 ==> pc + 2 < |code| && !IsCount(code[pc + 1]))
    && (op in {28, 29} && c == 0 ==> pc + 1 < |code| && TakesOpen(code[pc + 1]))
    && (op == 37 ==> IsVararg(pt.isVararg) && !NeedsArg(pt.isVararg) && (b == 0 ==> pc + 1 < |code| && TakesOpen(code[pc + 1])))
    && (op == 34 && c == 0 ==> pc + 2 < |code|)
    && (op == 36 && 512 * b + c < |pt.p| ==>
         var n := pt.p[512 * b + c].nups;
         pc + n < |code| && forall q :: pc < q <= pc + n ==> OpOf(code[q]) in {0, 4})
  }

  ghost predicate Good(pt: Proto, pc: nat)
    requires pc < |pt.code|
  {
    var w := pt.code[pc];
    Named(pt, OpOf(w), ArgA(w), ArgB(w), ArgC(w)) && Continues(pt, pc, OpOf(w), ArgB(w), ArgC(w))
  }

  /** Parameters fit the registers, 250 at most; only a function with variable
      arguments can need their table; there are no more names of upvalues than
      upvalues; lines are told for all words or for none; and the end is a RETURN. */
  predicate Header(pt: Proto) {
    && pt.maxstacksize <= 250
    && pt.numparams + pt.isVararg % 2 <= pt.maxstacksize
    && (pt.isVararg / 4 % 2 == 1 ==> pt.isVararg % 2 == 1)
    && |pt.upvalues| <= pt.nups
    && |pt.lineinfo| in {0, |pt.code|}
    && |pt.code| > 0 && OpOf(pt.code[|pt.code| - 1]) == 30
  }

  // ---- The checker decides it ---------------------------------------------

  lemma HeaderIs(pt: Proto)
    ensures PreCheck(pt) <==> Header(pt)
  {
    hide OpOf, ArgA, ArgB, ArgC;
  }

  lemma JumpIs(pt: Proto, dest: int)
    ensures JumpOk(pt, dest) <==> IsStart(pt.code, dest)
  {
    if 0 <= dest < |pt.code| {
      Parity(pt.code, dest);
    } else if IsStart(pt.code, dest) {
      StartInside(pt.code, 0, dest);
    }
  }

  /** The registers of one instruction, as the checker looks at them. */
  predicate RegistersOk(pt: Proto, op: nat, a: nat, b: nat, c: nat) {
    var n := pt.maxstacksize;
    && a < n
    && match op
       case 0 => b < n case 3 => b < n case 6 => b < n && (c < 256 ==> c < n)
       case 9 => (b < 256 ==> b < n) && (c < 256 ==> c < n)
       case 11 => a + 1 < n && b < n && (c < 256 ==> c < n)
       case 18 => b < n case 19 => b < n case 20 => b < n
       case 21 => b <= c ==> c < n
       case 26 => b < n case 27 => b < n
       case 28 => (b > 0 ==> a + b - 1 < n) && (c > 1 ==> a + c - 2 < n)
       case 29 => (b > 0 ==> a + b - 1 < n) && (c > 1 ==> a + c - 2 < n)
       case 30 => b > 1 ==> a + b - 2 < n
       case 31 => a + 3 < n case 32 => a + 3 < n case 33 => a + 2 + c < n case 34 => a + b < n
       case 37 => b > 1 ==> a + b - 2 < n
       case _ => 12 <= op <= 17 || 23 <= op <= 25 ==> (b < 256 ==> b < n) && (c < 256 ==> c < n)
  }

  lemma RegistersIs(pt: Proto, op: nat, a: nat, b: nat, c: nat)
    ensures (forall r :: Register(op, a, b, c, r) ==> r < pt.maxstacksize) <==> RegistersOk(pt, op, a, b, c)
  {
    if forall r :: Register(op, a, b, c, r) ==> r < pt.maxstacksize {
      assert Register(op, a, b, c, a) && (a < pt.maxstacksize);
      RegistersOnly(pt, op, a, b, c);
    }
  }

  lemma RegistersOnly(pt: Proto, op: nat, a: nat, b: nat, c: nat)
    requires forall r :: Register(op, a, b, c, r) ==> r < pt.maxstacksize
    ensures RegistersOk(pt, op, a, b, c)
  {
    var last := match op
      case 11 => a + 1 case 28 => a + b - 1 case 29 => a + b - 1 case 30 => a + b - 2 case 31 => a + 3 case 32 => a + 3
      case 33 => a + 2 + c case 34 => a + b case 37 => a + b - 2 case _ => b;
    assert Register(op, a, b, c, a) ==> a < pt.maxstacksize;
    assert Register(op, a, b, c, last) ==> last < pt.maxstacksize;
    assert Register(op, a, b, c, b) ==> b < pt.maxstacksize;
    assert Register(op, a, b, c, c) ==> c < pt.maxstacksize;
    assert Register(op, a, b, c, a + c - 2) ==> a + c - 2 < pt.maxstacksize;
  }

  lemma ConstantsIs(pt: Proto, op: nat, b: nat, c: nat)
    ensures (forall k :: Constant(op, b, c, k) ==> k < |pt.k|) <==>
            && (op in {1, 5, 7} ==> 512 * b + c < |pt.k|)
            && (op in {9, 12, 13, 14, 15, 16, 17, 23, 24, 25} && b >= 256 ==> b - 256 < |pt.k|)
            && (op in {6, 9, 11, 12, 13, 14, 15, 16, 17, 23, 24, 25} && c >= 256 ==> c - 256 < |pt.k|)
  {
    assert Constant(op, b, c, 512 * b + c) ==> (512 * b + c < |pt.k|) || !(forall k :: Constant(op, b, c, k) ==> k < |pt.k|);
    assert Constant(op, b, c, b - 256) ==> (b - 256 < |pt.k|) || !(forall k :: Constant(op, b, c, k) ==> k < |pt.k|);
    assert Constant(op, b, c, c - 256) ==> (c - 256 < |pt.k|) || !(forall k :: Constant(op, b, c, k) ==> k < |pt.k|);
  }

  /** What is behind the numbers. */
  lemma Follow(w: Word)
    ensures CountFollows(w) == IsCount(w) && OpenOp(w) == TakesOpen(w)
    ensures Opcode(w).Jmp? <==> OpOf(w) == 22
    ensures (Opcode(w).GetUpval? || Opcode(w).Move?) <==> OpOf(w) in {0, 4}
  {
    hide OpOf, ArgB, ArgC;
  }

  /** The same, spelled out. */
  predicate Spelled(pt: Proto, pc: nat, op: nat, a: nat, b: nat, c: nat) {
    var code := pt.code;
    && op < 38 && RegistersOk(pt, op, a, b, c)
    && (op in {1, 5, 7} ==> 512 * b + c < |pt.k|)
    && (op in {9, 12, 13, 14, 15, 16, 17, 23, 24, 25} && b >= 256 ==> b - 256 < |pt.k|)
    && (op in {6, 9, 11, 12, 13, 14, 15, 16, 17, 23, 24, 25} && c >= 256 ==> c - 256 < |pt.k|)
    && (op in {5, 7} ==> 512 * b + c < |pt.k| && pt.k[512 * b + c].KStr?)
    && (op in {4, 8} ==> b < pt.nups)
    && UnusedZero(op, b, c)
    && (op == 21 ==> b < c) && (op == 33 ==> c >= 1)
    && (op in {22, 31, 32} ==> JumpOk(pt, pc + 1 + (512 * b + c) - 131071))
    && (op in {23, 24, 25, 26, 27, 33} ==> pc + 2 < |code| && Opcode(code[pc + 1]).Jmp?)
    && (op == 2 && c == 1 ==> pc + 2 < |code| && !CountFollows(code[pc + 1]))
    && (op in {28, 29} && c == 0 ==> pc + 1 < |code| && OpenOp(code[pc + 1]))
    && (op == 37 ==> IsVararg(pt.isVararg) && !NeedsArg(pt.isVararg) && (b == 0 ==> pc + 1 < |code| && OpenOp(code[pc + 1])))
    && (op == 34 && c == 0 ==> pc + 2 < |code|)
    && (op == 36 ==> 512 * b + c < |pt.p| && CapturesOk(pt, pc, pt.p[512 * b + c].nups))
  }

  lemma GoodSpelled(pt: Proto, pc: nat)
    requires pc < |pt.code|
    ensures var w := pt.code[pc]; Good(pt, pc) <==> Spelled(pt, pc, OpOf(w), ArgA(w), ArgB(w), ArgC(w))
  {
    var w := pt.code[pc];
    var op, a, b, c := OpOf(w), ArgA(w), ArgB(w), ArgC(w);
    RegistersIs(pt, op, a, b, c);
    ConstantsIs(pt, op, b, c);
    JumpIs(pt, pc + 1 + (512 * b + c) - 131071);
    if pc + 1 < |pt.code| { Follow(pt.code[pc + 1]); }
    forall q: nat | q < |pt.code| ensures CaptureWord(pt, q) <==> OpOf(pt.code[q]) in {0, 4} { Follow(pt.code[q]); }
    hide OpOf, ArgA, ArgB, ArgC, Register, Constant, JumpOk, IsStart, RegistersOk, Opcode, UnusedZero, CaptureWord, OpenOp, CountFollows;
  }

  lemma InstrIs(pt: Proto, pc: nat)
    requires PreCheck(pt) && pc < |pt.code|
    ensures InstrOk(pt, pc) <==> Good(pt, pc)
  {
    var w := pt.code[pc];
    var op := OpOf(w);
    GoodSpelled(pt, pc);
    hide Good, Spelled, InstrOk, PreCheck, OpOf, ArgA, ArgB, ArgC;
    if op <= 5 { LoadsIs(pt, pc); } else if op <= 11 { StoresIs(pt, pc); } else if op <= 17 { ArithmeticIs(pt, pc); }
    else if op <= 21 { UnaryIs(pt, pc); } else if op <= 24 { JumpsIs(pt, pc); }
    else if op <= 27 { TestsIs(pt, pc); } else if op <= 30 { CallsIs(pt, pc); } else if op <= 33 { LoopsIs(pt, pc); } else { OthersIs(pt, pc); }
  }

  lemma LoadsIs(pt: Proto, pc: nat)
    requires PreCheck(pt) && pc < |pt.code| && 0 <= OpOf(pt.code[pc]) <= 5
    ensures var w := pt.code[pc]; InstrOk(pt, pc) <==> Spelled(pt, pc, OpOf(w), ArgA(w), ArgB(w), ArgC(w))
  {
    Decomposed(pt.code[pc]);
    hide OpOf, ArgA, ArgB, ArgC, ArgBx, JumpOk, PreCheck, OpenOp, CountFollows, CapturesOk;
  }

  lemma StoresIs(pt: Proto, pc: nat)
    requires PreCheck(pt) && pc < |pt.code| && 6 <= OpOf(pt.code[pc]) <= 11
    ensures var w := pt.code[pc]; InstrOk(pt, pc) <==> Spelled(pt, pc, OpOf(w), ArgA(w), ArgB(w), ArgC(w))
  {
    Decomposed(pt.code[pc]);
    hide OpOf, ArgA, ArgB, ArgC, ArgBx, JumpOk, PreCheck, OpenOp, CountFollows, CapturesOk;
  }

  lemma ArithmeticIs(pt: Proto, pc: nat)
    requires PreCheck(pt) && pc < |pt.code| && 12 <= OpOf(pt.code[pc]) <= 17
    ensures var w := pt.code[pc]; InstrOk(pt, pc) <==> Spelled(pt, pc, OpOf(w), ArgA(w), ArgB(w), ArgC(w))
  {
    Decomposed(pt.code[pc]);
    hide OpOf, ArgA, ArgB, ArgC, ArgBx, JumpOk, PreCheck, OpenOp, CountFollows, CapturesOk;
  }

  lemma UnaryIs(pt: Proto, pc: nat)
    requires PreCheck(pt) && pc < |pt.code| && 18 <= OpOf(pt.code[pc]) <= 21
    ensures var w := pt.code[pc]; InstrOk(pt, pc) <==> Spelled(pt, pc, OpOf(w), ArgA(w), ArgB(w), ArgC(w))
  {
    Decomposed(pt.code[pc]);
    hide OpOf, ArgA, ArgB, ArgC, ArgBx, JumpOk, PreCheck, OpenOp, CountFollows, CapturesOk;
  }

  lemma JumpsIs(pt: Proto, pc: nat)
    requires PreCheck(pt) && pc < |pt.code| && 22 <= OpOf(pt.code[pc]) <= 24
    ensures var w := pt.code[pc]; InstrOk(pt, pc) <==> Spelled(pt, pc, OpOf(w), ArgA(w), ArgB(w), ArgC(w))
  {
    Decomposed(pt.code[pc]);
    hide OpOf, ArgA, ArgB, ArgC, ArgBx, JumpOk, PreCheck, OpenOp, CountFollows, CapturesOk;
  }

  lemma TestsIs(pt: Proto, pc: nat)
    requires PreCheck(pt) && pc < |pt.code| && 25 <= OpOf(pt.code[pc]) <= 27
    ensures var w := pt.code[pc]; InstrOk(pt, pc) <==> Spelled(pt, pc, OpOf(w), ArgA(w), ArgB(w), ArgC(w))
  {
    Decomposed(pt.code[pc]);
    hide OpOf, ArgA, ArgB, ArgC, ArgBx, JumpOk, PreCheck, OpenOp, CountFollows, CapturesOk;
  }

  lemma CallsIs(pt: Proto, pc: nat)
    requires PreCheck(pt) && pc < |pt.code| && 28 <= OpOf(pt.code[pc]) <= 30
    ensures var w := pt.code[pc]; InstrOk(pt, pc) <==> Spelled(pt, pc, OpOf(w), ArgA(w), ArgB(w), ArgC(w))
  {
    Decomposed(pt.code[pc]);
    hide OpOf, ArgA, ArgB, ArgC, ArgBx, JumpOk, PreCheck, OpenOp, CountFollows, CapturesOk;
  }

  lemma LoopsIs(pt: Proto, pc: nat)
    requires PreCheck(pt) && pc < |pt.code| && 31 <= OpOf(pt.code[pc]) <= 33
    ensures var w := pt.code[pc]; InstrOk(pt, pc) <==> Spelled(pt, pc, OpOf(w), ArgA(w), ArgB(w), ArgC(w))
  {
    Decomposed(pt.code[pc]);
    hide OpOf, ArgA, ArgB, ArgC, ArgBx, JumpOk, PreCheck, OpenOp, CountFollows, CapturesOk;
  }

  lemma OthersIs(pt: Proto, pc: nat)
    requires PreCheck(pt) && pc < |pt.code| && 34 <= OpOf(pt.code[pc])
    ensures var w := pt.code[pc]; InstrOk(pt, pc) <==> Spelled(pt, pc, OpOf(w), ArgA(w), ArgB(w), ArgC(w))
  {
    Decomposed(pt.code[pc]);
    hide OpOf, ArgA, ArgB, ArgC, ArgBx, JumpOk, PreCheck, OpenOp, CountFollows, CapturesOk;
  }

  lemma {:induction false} ScanIs(pt: Proto, from: nat)
    requires PreCheck(pt) && from <= |pt.code|
    ensures ScanOk(pt, from) <==> forall pc :: 0 <= pc < |pt.code| && StartsFrom(pt.code, from, pc) ==> InstrOk(pt, pc)
    decreases |pt.code| - from
  {
    hide InstrOk, PreCheck;
    if from < |pt.code| {
      var next := NextStart(pt.code, from);
      assert StartsFrom(pt.code, from, from);
      if next <= |pt.code| {
        ScanIs(pt, next);
        forall pc | 0 <= pc < |pt.code| ensures StartsFrom(pt.code, from, pc) <==> pc == from || StartsFrom(pt.code, next, pc) {}
      }
    }
  }

  /** The checker accepts a function exactly if its header is in order and every
      instruction in it, wherever one starts, names only what is there and goes on
      as its kind demands. */
  lemma AcceptedExactly(pt: Proto)
    ensures Accepted(pt) <==> Header(pt) && forall pc :: 0 <= pc < |pt.code| && IsStart(pt.code, pc) ==> Good(pt, pc)
  {
    HeaderIs(pt);
    hide Header, Good, PreCheck, InstrOk, ScanOk, StartsFrom;
    if PreCheck(pt) {
      ScanIs(pt, 0);
      forall pc: nat | pc < |pt.code| ensures InstrOk(pt, pc) <==> Good(pt, pc) { InstrIs(pt, pc); }
    }
  }

  /** `function(a, b) return a .. b end`. */
  const CONCATENATION := Proto(None, 0, 0, 0, 2, 0, 4, [
    0 + 64 * 2 + 8388608 * 0,                  // MOVE 2 0
    0 + 64 * 3 + 8388608 * 1,                  // MOVE 3 1
    21 + 64 * 2 + 8388608 * 2 + 16384 * 3,     // CONCAT 2 2 3
    30 + 64 * 2 + 8388608 * 2,                 // RETURN 2 2
    30 + 64 * 0 + 8388608 * 1                  // RETURN 0 1
  ], [], [], [], [], [])

  lemma ConcatenationFields()
    ensures var code := CONCATENATION.code;
            && |code| == 5
            && (OpOf(code[0]) == 0 && ArgA(code[0]) == 2 && ArgB(code[0]) == 0 && ArgC(code[0]) == 0)
            && (OpOf(code[1]) == 0 && ArgA(code[1]) == 3 && ArgB(code[1]) == 1 && ArgC(code[1]) == 0)
            && (OpOf(code[2]) == 21 && ArgA(code[2]) == 2 && ArgB(code[2]) == 2 && ArgC(code[2]) == 3)
            && (OpOf(code[3]) == 30 && ArgA(code[3]) == 2 && ArgB(code[3]) == 2 && ArgC(code[3]) == 0)
            && (OpOf(code[4]) == 30 && ArgA(code[4]) == 0 && ArgB(code[4]) == 1 && ArgC(code[4]) == 0)
  {
    Composed(0, 2, 0, 0);
    Composed(0, 3, 1, 0);
    Composed(21, 2, 2, 3);
    Composed(30, 2, 2, 0);
    Composed(30, 0, 1, 0);
    hide OpOf, ArgA, ArgB, ArgC, ArgBx;
  }

  lemma ConcatenationAccepted()
    ensures Accepted(CONCATENATION)
  {
    var pt := CONCATENATION;
    ConcatenationFields();
    hide OpOf, ArgA, ArgB, ArgC, IsStart, Accepted;
    AcceptedExactly(pt);
    assert Header(pt);
    assert pt.maxstacksize == 4;
    hide CONCATENATION, Header;
    forall pc: nat | pc < |pt.code| ensures Good(pt, pc) { }
  }

  // ---- Where control can go -----------------------------------------------

  /** The next instruction, by the number of the opcode: whatever values, calls and
      comparisons do. */
  predicate Leads(pt: Proto, pc: nat, q: int)
    requires pc < |pt.code|
  {
    var w := pt.code[pc];
    var op, b, c := OpOf(w), ArgB(w), ArgC(w);
    var jump := pc + 1 + (512 * b + c) - 131071;
    if op == 30 then false                                           // RETURN
    else if op in {22, 32} then q == jump                            // JMP, FORPREP
    else if op == 31 then q == jump || q == pc + 1                   // FORLOOP
    else if op in {23, 24, 25, 26, 27, 33} then                      // tests, TFORLOOP
      || q == pc + 2
      || (pc + 1 < |pt.code| && q == pc + 2 + (512 * ArgB(pt.code[pc + 1]) + ArgC(pt.code[pc + 1])) - 131071)
    else if op == 2 then q == if c == 0 then pc + 1 else pc + 2      // LOADBOOL
    else if op == 34 then q == if c == 0 then pc + 2 else pc + 1     // SETLIST
    else if op == 36 then 512 * b + c < |pt.p| && q == pc + 1 + pt.p[512 * b + c].nups
    else q == pc + 1
  }

  lemma GoesByNumber(pt: Proto, pc: nat, q: int)
    requires pc < |pt.code|
    ensures Goes(pt, pc, q) <==> Leads(pt, pc, q)
  {
    Decomposed(pt.code[pc]);
    if pc + 1 < |pt.code| { Decomposed(pt.code[pc + 1]); }
    hide OpOf, ArgA, ArgB, ArgC, ArgBx;
  }
}
