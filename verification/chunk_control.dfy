/** Where control can go in a function (`luaV_execute`), and that in accepted code
    it always is at the start of an instruction. */
module ChunkControl {
  import opened ChunkWords
  import opened ChunkChecker

  // ---- The machine's program counter --------------------------------------

  /** The word `pc` points to after an instruction has been fetched at `pc - 1` is a
      jump: where it goes. */
  predicate JumpsTo(code: seq<Word>, pc: int, q: int) {
    0 <= pc < |code| && q == pc + 1 + ArgSbx(code[pc])
  }

  /** Control can go from the instruction at `pc` to `q`, whatever values, calls and
      comparisons do. */
  predicate Goes(pt: Proto, pc: int, q: int) {
    0 <= pc < |pt.code| &&
      var i := pt.code[pc];
      match Opcode(i)
      case Return => false
      case LoadBool => q == if ArgC(i) != 0 then pc + 2 else pc + 1
      case Jmp => q == pc + 1 + ArgSbx(i)
      case ForPrep => q == pc + 1 + ArgSbx(i)
      case ForLoop => q == pc + 1 || q == pc + 1 + ArgSbx(i)
      case Eq => q == pc + 2 || JumpsTo(pt.code, pc + 1, q)
      case Lt => q == pc + 2 || JumpsTo(pt.code, pc + 1, q)
      case Le => q == pc + 2 || JumpsTo(pt.code, pc + 1, q)
      case Test => q == pc + 2 || JumpsTo(pt.code, pc + 1, q)
      case TestSet => q == pc + 2 || JumpsTo(pt.code, pc + 1, q)
      case TForLoop => q == pc + 2 || JumpsTo(pt.code, pc + 1, q)
      case SetList => q == if ArgC(i) == 0 then pc + 2 else pc + 1
      case Closure => ArgBx(i) < |pt.p| && q == pc + 1 + pt.p[ArgBx(i)].nups
      case _ => q == pc + 1
  }

  /** How many of the words that follow an instruction is looked at with it. */
  function Operands(pt: Proto, pc: int): nat
    requires 0 <= pc < |pt.code|
  {
    var i := pt.code[pc];
    if IsTest(Opcode(i)) || CountFollows(i) then 1
    else if Opcode(i).Closure? && ArgBx(i) < |pt.p| then pt.p[ArgBx(i)].nups
    else 0
  }

  ghost predicate Path(pt: Proto, path: seq<int>) {
    path != [] && path[0] == 0 && forall i :: 0 <= i < |path| - 1 ==> Goes(pt, path[i], path[i + 1])
  }

  ghost predicate Reached(pt: Proto, pc: int) {
    exists path :: Path(pt, path) && path[|path| - 1] == pc
  }

  // ---- Instructions and counts --------------------------------------------

  /** The words of the code are instructions one after the other, except those that
      are counts. */
  predicate StartsFrom(code: seq<Word>, from: nat, pc: int)
    decreases |code| - from
  {
    from < |code| && (pc == from || StartsFrom(code, NextStart(code, from), pc))
  }

  predicate IsStart(code: seq<Word>, pc: int) {
    StartsFrom(code, 0, pc)
  }

  lemma {:induction false} StartInside(code: seq<Word>, from: nat, pc: int)
    requires StartsFrom(code, from, pc)
    ensures from <= pc < |code|
    decreases |code| - from
  {
    if pc != from { StartInside(code, NextStart(code, from), pc); }
  }

  lemma {:induction false} StartNext(code: seq<Word>, from: nat, pc: nat)
    requires StartsFrom(code, from, pc) && pc < |code| && NextStart(code, pc) < |code|
    ensures StartsFrom(code, from, NextStart(code, pc))
    decreases |code| - from
  {
    if pc != from { StartNext(code, NextStart(code, from), pc); }
  }

  /** A word is an instruction or the count of the one before it. */
  lemma {:induction false} StartOrCount(code: seq<Word>, from: nat, pc: nat)
    requires from <= pc < |code|
    ensures StartsFrom(code, from, pc) || (pc > from && StartsFrom(code, from, pc - 1) && CountFollows(code[pc - 1]))
    decreases |code| - from
  {
    if pc != from {
      var next := NextStart(code, from);
      if next <= pc { StartOrCount(code, next, pc); }
    }
  }

  /** The count of an instruction is no instruction. */
  lemma {:induction false} CountIsNot(code: seq<Word>, from: nat, pc: nat)
    requires StartsFrom(code, from, pc) && pc < |code| && CountFollows(code[pc])
    ensures !StartsFrom(code, from, pc + 1)
    decreases |code| - from
  {
    if pc == from {
      if StartsFrom(code, pc + 2, pc + 1) { StartInside(code, pc + 2, pc + 1); }
    } else {
      StartInside(code, NextStart(code, from), pc);
      CountIsNot(code, NextStart(code, from), pc);
    }
  }

  /** Among words that look alike, instructions and counts take turns: so the word
      after them is an instruction exactly if there is an even number of them. */
  lemma {:induction false} Parity(code: seq<Word>, dest: nat)
    requires dest < |code|
    ensures IsStart(code, dest) <==> LookAlikes(code, dest) % 2 == 0
    decreases dest
  {
    hide IsStart, StartsFrom, CountFollows, LookAlikes;
    LookStep(code, dest);
    if dest > 0 {
      Parity(code, dest - 1);
      StartStep(code, dest);
      Toggle(CountFollows(code[dest - 1]), IsStart(code, dest - 1), IsStart(code, dest), LookAlikes(code, dest - 1), LookAlikes(code, dest));
    }
  }

  lemma Toggle(follows: bool, before: bool, now: bool, n: nat, m: nat)
    requires (before <==> n % 2 == 0) && (now <==> !(follows && before)) && m == if follows then 1 + n else 0
    ensures now <==> m % 2 == 0
  {}

  lemma StartStep(code: seq<Word>, dest: nat)
    requires 0 < dest < |code|
    ensures IsStart(code, dest) <==> !(CountFollows(code[dest - 1]) && IsStart(code, dest - 1))
  {
    hide StartsFrom, Opcode, ArgC;
    StartOrCount(code, 0, dest);
    if CountFollows(code[dest - 1]) && IsStart(code, dest - 1) { CountIsNot(code, 0, dest - 1); }
  }

  lemma LookStep(code: seq<Word>, dest: nat)
    requires dest < |code|
    ensures dest == 0 ==> IsStart(code, dest) && LookAlikes(code, dest) == 0
    ensures dest > 0 ==> LookAlikes(code, dest) == if CountFollows(code[dest - 1]) then 1 + LookAlikes(code, dest - 1) else 0
  {}

  // ---- Accepted code ------------------------------------------------------

  lemma {:induction false} StartOk(pt: Proto, from: nat, pc: nat)
    requires PreCheck(pt) && ScanOk(pt, from) && StartsFrom(pt.code, from, pc) && pc < |pt.code|
    ensures InstrOk(pt, pc)
    decreases |pt.code| - from
  {
    if pc != from { StartOk(pt, NextStart(pt.code, from), pc); }
  }

  /** The instruction after one that is no SETLIST with a count. */
  lemma Follows(pt: Proto, pc: nat)
    requires Accepted(pt) && IsStart(pt.code, pc) && pc < |pt.code| && !Opcode(pt.code[pc]).Return?
    ensures NextStart(pt.code, pc) < |pt.code| && IsStart(pt.code, NextStart(pt.code, pc))
  {
    StartOk(pt, 0, pc);
    assert pc != |pt.code| - 1;
    StartNext(pt.code, 0, pc);
  }

  lemma JumpStart(pt: Proto, pc: nat)
    requires Accepted(pt) && IsStart(pt.code, pc) && pc < |pt.code| && FormatOf(Opcode(pt.code[pc])).AsBx?
    ensures IsStart(pt.code, pc + 1 + ArgSbx(pt.code[pc]))
  {
    StartOk(pt, 0, pc);
    Parity(pt.code, pc + 1 + ArgSbx(pt.code[pc]));
  }

  lemma {:induction false} CapturesFollow(pt: Proto, pc: nat, n: nat)
    requires Accepted(pt) && IsStart(pt.code, pc) && pc < |pt.code| && Opcode(pt.code[pc]).Closure? && CapturesOk(pt, pc, n)
    ensures pc + 1 + n < |pt.code| && IsStart(pt.code, pc + 1 + n)
  {
    hide Decode, OpOf, ScanOk, PreCheck;
    if n == 0 { Follows(pt, pc); } else {
      assert CapturesOk(pt, pc, n - 1);
      CapturesFollow(pt, pc, n - 1);
      assert CaptureWord(pt, pc + n);
      Follows(pt, pc + n);
    }
  }

  /** LOADBOOL jumps for any C but zero, and the checker looks only at C = 1. */
  predicate BoolOk(pt: Proto, pc: int) {
    0 <= pc < |pt.code| && Opcode(pt.code[pc]).LoadBool? && ArgC(pt.code[pc]) > 1 ==> IsStart(pt.code, pc + 2)
  }

  /** One step: from instruction to instruction, and all the words looked at on the
      way are in the code. */
  lemma GoesOn(pt: Proto, pc: nat, q: int)
    requires Accepted(pt) && IsStart(pt.code, pc) && BoolOk(pt, pc) && Goes(pt, pc, q)
    ensures IsStart(pt.code, q) && pc + Operands(pt, pc) < |pt.code|
  {
    hide ScanOk, PreCheck, StartsFrom, Decode, OpOf, ArgA, ArgB, ArgC, ArgBx, ArgSbx, JumpOk, CapturesOk, InstrOk;
    LooksInside(pt, pc);
    var i := pt.code[pc];
    Follows(pt, pc);
    match Opcode(i)
    case LoadBool => if ArgC(i) == 1 { SkipStart(pt, pc); }
    case Jmp => JumpStart(pt, pc);
    case ForPrep => JumpStart(pt, pc);
    case ForLoop => JumpStart(pt, pc);
    case Closure => ClosureStart(pt, pc);
    case _ => if IsTest(Opcode(i)) { TestStart(pt, pc); }
  }

  lemma SkipStart(pt: Proto, pc: nat)
    requires Accepted(pt) && IsStart(pt.code, pc) && pc < |pt.code| && Opcode(pt.code[pc]).LoadBool? && ArgC(pt.code[pc]) == 1
    ensures IsStart(pt.code, pc + 2)
  {
    hide Decode, OpOf, ArgA, ArgB, ArgC;
    StartOk(pt, 0, pc);
    Follows(pt, pc);
    StartNext(pt.code, 0, pc + 1);
  }

  lemma ClosureStart(pt: Proto, pc: nat)
    requires Accepted(pt) && IsStart(pt.code, pc) && pc < |pt.code| && Opcode(pt.code[pc]).Closure?
    ensures ArgBx(pt.code[pc]) < |pt.p| && IsStart(pt.code, pc + 1 + pt.p[ArgBx(pt.code[pc])].nups)
  {
    hide Decode, OpOf, ArgA, ArgB, ArgC, CapturesOk;
    StartOk(pt, 0, pc);
    CapturesFollow(pt, pc, pt.p[ArgBx(pt.code[pc])].nups);
  }

  lemma TestStart(pt: Proto, pc: nat)
    requires Accepted(pt) && IsStart(pt.code, pc) && pc < |pt.code| && IsTest(Opcode(pt.code[pc]))
    ensures pc + 1 < |pt.code| && IsStart(pt.code, pc + 2) && IsStart(pt.code, pc + 2 + ArgSbx(pt.code[pc + 1]))
  {
    hide Decode, OpOf, ArgA, ArgB, ArgC;
    StartOk(pt, 0, pc);
    Follows(pt, pc);
    Follows(pt, pc + 1);
    JumpStart(pt, pc + 1);
  }

  lemma LooksInside(pt: Proto, pc: nat)
    requires Accepted(pt) && IsStart(pt.code, pc) && pc < |pt.code|
    ensures pc + Operands(pt, pc) < |pt.code|
  {
    StartOk(pt, 0, pc);
  }

  /** In accepted code control stays inside, at the starts of instructions, never on
      a count: exactly if the LOADBOOLs that can be reached and have an operand C
      greater than one skip to the start of an instruction, too. */
  lemma Confined(pt: Proto)
    requires Accepted(pt)
    ensures (forall pc :: Reached(pt, pc) ==> IsStart(pt.code, pc)) <==> (forall pc :: Reached(pt, pc) ==> BoolOk(pt, pc))
    ensures (forall pc :: Reached(pt, pc) ==> BoolOk(pt, pc)) ==>
              forall pc :: Reached(pt, pc) ==> 0 <= pc < |pt.code| && pc + Operands(pt, pc) < |pt.code|
  {
    if forall pc :: Reached(pt, pc) ==> BoolOk(pt, pc) {
      forall pc | Reached(pt, pc)
        ensures IsStart(pt.code, pc) && 0 <= pc < |pt.code| && pc + Operands(pt, pc) < |pt.code|
      {
        var path :| Path(pt, path) && path[|path| - 1] == pc;
        PathStarts(pt, path);
        StartInside(pt.code, 0, pc);
        LooksInside(pt, pc);
      }
    } else {
      var pc :| Reached(pt, pc) && !BoolOk(pt, pc);
      var path :| Path(pt, path) && path[|path| - 1] == pc;
      assert Goes(pt, pc, pc + 2);
      PathOn(pt, path, pc + 2);
    }
  }

  lemma PathOn(pt: Proto, path: seq<int>, q: int)
    requires Path(pt, path) && Goes(pt, path[|path| - 1], q)
    ensures Reached(pt, q)
  {
    var more := path + [q];
    forall i | 0 <= i < |more| - 1 ensures Goes(pt, more[i], more[i + 1]) {}
    assert Path(pt, more) && more[|more| - 1] == q;
  }

  lemma {:induction false} PathStarts(pt: Proto, path: seq<int>)
    requires Accepted(pt) && Path(pt, path) && forall pc :: Reached(pt, pc) ==> BoolOk(pt, pc)
    ensures IsStart(pt.code, path[|path| - 1])
    decreases |path|
  {
    if |path| > 1 {
      var less := path[..|path| - 1];
      assert Path(pt, less);
      PathStarts(pt, less);
      var pc := less[|less| - 1];
      assert Reached(pt, pc);
      StartInside(pt.code, 0, pc);
      assert Goes(pt, path[|path| - 2], path[|path| - 1]);
      GoesOn(pt, pc, path[|path| - 1]);
    }
  }

  /** Code whose LOADBOOLs have operands C of 0 or 1, like all the compiler makes. */
  lemma PlainConfined(pt: Proto, pc: int)
    requires Accepted(pt) && Reached(pt, pc)
    requires forall q :: 0 <= q < |pt.code| && Opcode(pt.code[q]).LoadBool? ==> ArgC(pt.code[q]) <= 1
    ensures 0 <= pc < |pt.code| && IsStart(pt.code, pc) && pc + Operands(pt, pc) < |pt.code|
  {
    Confined(pt);
  }

  const TWO_WORDS := Proto(None, 0, 0, 0, 0, 0, 2, [2 + 2 * 16384, 30 + 8388608], [], [], [], [], [])

  /** `LOADBOOL 0 0 2; RETURN 0 1` is accepted, and control leaves the code. */
  lemma Escapes()
    ensures Accepted(TWO_WORDS) && Reached(TWO_WORDS, 2) && |TWO_WORDS.code| == 2
  {
    TwoWordsAccepted();
    TwoWordsGo();
    hide Goes, Accepted, TWO_WORDS;
    assert Path(TWO_WORDS, [0, 2]);
    assert [0, 2][1] == 2;
  }

  lemma TwoWordsParts()
    ensures var pt := TWO_WORDS;
            && Opcode(pt.code[0]) == LoadBool && ArgA(pt.code[0]) == 0 && ArgB(pt.code[0]) == 0 && ArgC(pt.code[0]) == 2
            && Opcode(pt.code[1]) == Return && ArgA(pt.code[1]) == 0 && ArgB(pt.code[1]) == 1 && ArgC(pt.code[1]) == 0
  {}

  lemma TwoWordsAccepted()
    ensures Accepted(TWO_WORDS) && |TWO_WORDS.code| == 2
  {
    var pt := TWO_WORDS;
    TwoWordsParts();
    hide Opcode, ArgA, ArgB, ArgC;
    assert InstrOk(pt, 0) && InstrOk(pt, 1);
    assert ScanOk(pt, 2);
    assert ScanOk(pt, 1);
  }

  lemma TwoWordsGo()
    ensures Goes(TWO_WORDS, 0, 2)
  {
    TwoWordsParts();
    hide Opcode, ArgA, ArgB, ArgC;
  }
}
